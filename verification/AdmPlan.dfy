/** The export plan: construction, binding of dynamic metadata, and its undo. */
module AdmPlan {
  import opened Wrappers
  import opened Bytes
  import opened Text
  import opened AdmErrors
  import opened AdmIds
  import opened AdmTracks
  import opened AdmDocument
  import opened AdmContainer
  import opened AdmDynamics
  import opened AdmAdmission
  import Chna
  import Dbmd

  /** The XML printer behind the document builder. */
  type XmlWriter = Document -> seq<byte>

  datatype Policy = BestEffort | Strict

  datatype BindingState = Unresolved | ResolvedWithinCarrier

  /** The parts of the report that the binding operations change. */
  datatype Report = Report(
    policy: Policy, semanticBinding: BindingState, objectBinding: BindingState, profile: Option<CodecProfile>,
    boundPcm: nat, objectsBound: nat, objectsUnbound: nat, dynamicExported: bool,
    unavailable: Option<string>, warnings: seq<string>)

  const UNAVAILABLE_WARNING := "Decoded JOC/OAMD dynamic export unavailable: "
  const UNRESOLVED_REASON := "decoded JOC/OAMD binding is unavailable for this profile"

  // ---------------------------------------------------------------- specification

  /** Container and size of the file for a document and a track table. */
  function LayoutOf(xml: seq<byte>, trackCount: nat, dataBytes: nat): Result<(Container, nat), AdmError> {
    if |xml| >= U64_LIMIT then Err(SizeOverflow)
    else AdmBwfLayout(|xml|, 4 + Chna.RECORD_SIZE * trackCount, 6, dataBytes)
  }

  function PcmBytes(duration: nat, channels: nat): nat {
    duration * channels * 3
  }

  /** The plan's value for given tracks, if its layout can be computed. */
  function PlanFor(rate: nat, duration: nat, signals: nat, lfe: bool, tracks: seq<TrackDescriptor>,
      render: XmlWriter): Result<ExportPlan, AdmError>
    requires rate > 0
  {
    var xml := render(MakeDocument(rate, duration, tracks));
    var dataBytes := PcmBytes(duration, |tracks|);
    var layout := LayoutOf(xml, |tracks|, dataBytes);
    if layout.Err? then Err(layout.error)
    else Ok(ExportPlan(rate, duration, signals, lfe, tracks, xml, dataBytes, layout.value.0, layout.value.1))
  }

  /** The freshly built plan, or the reason there is none. */
  function FreshPlan(rate: nat, duration: nat, signals: nat, lfe: bool, binding: BindingState, policy: Policy,
      render: XmlWriter): Result<ExportPlan, AdmError> {
    if rate != 48_000 && rate != 96_000 then Err(InvalidScene)
    else if signals == 0 then Err(NoReconstructionSignals)
    else if policy.Strict? && binding.Unresolved? then Err(StrictUnresolvedBinding)
    else if signals > MAX_SIGNALS then Err(InvalidScene)
    else if PcmBytes(duration, signals + BedSize(lfe)) >= U64_LIMIT then Err(SizeOverflow)
    else PlanFor(rate, duration, signals, lfe, PlannedTracks(signals, lfe), render)
  }

  /** Every reconstruction track of the plan has updates that drive the whole programme. */
  predicate Admissible(timeline: seq<MetadataUpdate>, signals: nat, duration: nat) {
    forall j :: 0 <= j < signals ==> ObjectOk(timeline, j, duration)
  }

  /** Object `j` of the carrier has the total index `j + 1`: index zero is the LFE. */
  predicate ObjectOk(timeline: seq<MetadataUpdate>, j: nat, duration: nat) {
    UpdatesOk(Updates(timeline, j + 1), duration)
  }

  /** A track with its object's dynamic blocks; bed tracks have none. */
  function BoundTrack(t: TrackDescriptor, timeline: seq<MetadataUpdate>, duration: nat): TrackDescriptor {
    if t.kind.Reconstruction? && ObjectOk(timeline, t.kind.index, duration)
    then t.(bound := true, blocks := BlocksOf(Updates(timeline, t.kind.index + 1), duration))
    else t
  }

  function BoundTracks(tracks: seq<TrackDescriptor>, timeline: seq<MetadataUpdate>,
      duration: nat): (bound: seq<TrackDescriptor>)
    ensures |bound| == |tracks|
  {
    seq(|tracks|, i requires 0 <= i < |tracks| => BoundTrack(tracks[i], timeline, duration))
  }

  // ---------------------------------------------------------------- facts about track tables

  lemma FreshTable(signals: nat, lfe: bool)
    requires 1 <= signals <= MAX_SIGNALS
    ensures IsTrackTable(PlannedTracks(signals, lfe), signals, lfe)
  {
    var tracks := PlannedTracks(signals, lfe);
    forall i | 0 <= i < |tracks|
      ensures InPlace(tracks, i, lfe)
    {
      assert tracks[i] == PlannedTrack(i, lfe);
      hide KindAt, UidOf, FormatId, TrackFormatId, PackNumber;
    }
  }

  lemma TableWritable(tracks: seq<TrackDescriptor>, signals: nat, lfe: bool)
    requires IsTrackTable(tracks, signals, lfe)
    ensures |tracks| <= 124 && forall i :: 0 <= i < |tracks| ==> Chna.Fits(tracks[i])
  {
    Chna.ChnaRoundTrip(tracks, signals, lfe);
    hide Chna.ChnaOf, Chna.Fits, Chna.Payload, InPlace;
  }

  /** Binding changes no identity, so the table stays a plan's table. */
  lemma BoundTable(tracks: seq<TrackDescriptor>, signals: nat, lfe: bool, timeline: seq<MetadataUpdate>, duration: nat)
    requires IsTrackTable(tracks, signals, lfe)
    ensures IsTrackTable(BoundTracks(tracks, timeline, duration), signals, lfe)
  {
    hide PlannedTrack, ObjectOk, BlocksOf;
    var bound := BoundTracks(tracks, timeline, duration);
    forall i | 0 <= i < |bound|
      ensures InPlace(bound, i, lfe)
    {
      assert InPlace(tracks, i, lfe);
    }
  }

  /** Dropping every dynamic block gives back the fresh table. */
  lemma NeutralTable(tracks: seq<TrackDescriptor>, signals: nat, lfe: bool)
    requires IsTrackTable(tracks, signals, lfe)
    ensures |PlannedTracks(signals, lfe)| == |tracks|
    ensures forall i :: 0 <= i < |tracks| ==> tracks[i].Neutral() == PlannedTracks(signals, lfe)[i]
  {
    hide PlannedTrack;
    forall i | 0 <= i < |tracks|
      ensures tracks[i].Neutral() == PlannedTracks(signals, lfe)[i]
    {
      assert InPlace(tracks, i, lfe);
    }
  }

  lemma KindInTable(tracks: seq<TrackDescriptor>, signals: nat, lfe: bool, i: nat)
    requires IsTrackTable(tracks, signals, lfe) && i < |tracks|
    ensures tracks[i].kind == KindAt(i, lfe)
  {
    hide UidOf, FormatId, TrackFormatId, PackNumber, KindAt;
    assert InPlace(tracks, i, lfe);
    assert tracks[i].Neutral().kind == tracks[i].kind;
  }

  /** Every reconstruction track that carries blocks has them tile the programme. */
  lemma BoundBlocksTile(tracks: seq<TrackDescriptor>, timeline: seq<MetadataUpdate>, signals: nat, lfe: bool,
      duration: nat)
    requires IsTrackTable(tracks, signals, lfe) && Admissible(timeline, signals, duration)
    ensures forall i :: 0 <= i < |tracks| && tracks[i].kind.Reconstruction? ==>
      var t := BoundTracks(tracks, timeline, duration)[i];
      t.bound && Tiles(t.blocks, duration) && TotalDuration(t.blocks) == duration
  {
    hide UpdatesOk, BlocksOf, Tiles;
    forall i | 0 <= i < |tracks| && tracks[i].kind.Reconstruction?
      ensures var t := BoundTracks(tracks, timeline, duration)[i];
        t.bound && Tiles(t.blocks, duration) && TotalDuration(t.blocks) == duration
    {
      KindInTable(tracks, signals, lfe, i);
      var updates := Updates(timeline, tracks[i].kind.index + 1);
      assert ObjectOk(timeline, tracks[i].kind.index, duration);
      BlocksTile(updates, duration);
      TilesTotal(BlocksOf(updates, duration), duration);
    }
  }

  /** A bound track renders the updates of its object: row `i` with kind index `j` those with object number `j + 1`,
      the LFE being number zero. */
  lemma BoundBlocksFollow(tracks: seq<TrackDescriptor>, timeline: seq<MetadataUpdate>, signals: nat, lfe: bool,
      duration: nat, i: nat, picks: seq<nat>)
    requires IsTrackTable(tracks, signals, lfe) && Admissible(timeline, signals, duration)
    requires i < |tracks| && tracks[i].kind.Reconstruction?
    requires IsSelection(timeline, tracks[i].kind.index + 1, picks)
    ensures forall k :: 0 <= k < |picks| ==> picks[k] < |timeline|
    ensures var t := BoundTracks(tracks, timeline, duration)[i];
      t.bound && Follows(t.blocks, timeline, picks, duration) && t.Neutral() == tracks[i].Neutral()
  {
    hide UpdatesOk, Updates, BlocksOf, Follows, IsSelection;
    KindInTable(tracks, signals, lfe, i);
    assert ObjectOk(timeline, tracks[i].kind.index, duration);
    PicksAreInside(timeline, tracks[i].kind.index + 1, picks);
    BlocksFollow(timeline, tracks[i].kind.index + 1, picks, duration);
  }

  function CountReconstruction(tracks: seq<TrackDescriptor>): nat {
    if tracks == [] then 0
    else CountReconstruction(tracks[..|tracks| - 1]) + if tracks[|tracks| - 1].kind.Reconstruction? then 1 else 0
  }

  /** A table has as many reconstruction tracks as the plan has signals. */
  lemma SignalsCounted(tracks: seq<TrackDescriptor>, signals: nat, lfe: bool)
    requires IsTrackTable(tracks, signals, lfe)
    ensures CountReconstruction(tracks) == signals
  {
    hide InPlace;
    CountPrefix(tracks, signals, lfe, |tracks|);
    assert tracks[..|tracks|] == tracks;
  }

  lemma {:induction false} CountPrefix(tracks: seq<TrackDescriptor>, signals: nat, lfe: bool, k: nat)
    requires IsTrackTable(tracks, signals, lfe) && k <= |tracks|
    ensures CountReconstruction(tracks[..k]) == if k <= BedSize(lfe) then 0 else k - BedSize(lfe)
  {
    hide IsTrackTable;
    if k > 0 {
      CountPrefix(tracks, signals, lfe, k - 1);
      KindInTable(tracks, signals, lfe, k - 1);
      assert tracks[..k][..k - 1] == tracks[..k - 1];
    }
  }

  // ---------------------------------------------------------------- the plan object

  class AdmExportPlan {
    const sampleRate: nat
    const duration: nat
    const signals: nat
    const lfe: bool
    const dataBytes: nat
    const render: XmlWriter
    var tracks: seq<TrackDescriptor>
    var xml: seq<byte>
    var container: Container
    var totalSize: nat
    var report: Report

    /** The plan as the writer sees it. */
    function Value(): ExportPlan
      reads this
    {
      ExportPlan(sampleRate, duration, signals, lfe, tracks, xml, dataBytes, container, totalSize)
    }

    /** What every operation keeps, even one that fails: planned identities, and the document of the
        current tracks. */
    ghost predicate Consistent()
      reads this
    {
      && (sampleRate == 48_000 || sampleRate == 96_000) && duration < U64_LIMIT
      && IsTrackTable(tracks, signals, lfe)
      && dataBytes == PcmBytes(duration, |tracks|) < U64_LIMIT
      && xml == render(MakeDocument(sampleRate, duration, tracks))
      && PlanFor(sampleRate, duration, signals, lfe, PlannedTracks(signals, lfe), render).Ok?
    }

    /** The plan is the one its current tracks call for, container and size included. */
    ghost predicate Valid()
      reads this
    {
      Consistent() && PlanFor(sampleRate, duration, signals, lfe, tracks, render) == Ok(Value())
    }

    constructor (p: ExportPlan, render: XmlWriter, report: Report)
      ensures Value() == p && this.render == render && this.report == report
    {
      sampleRate, duration, signals, lfe, dataBytes := p.sampleRate, p.duration, p.signals, p.lfe, p.dataBytes;
      this.render := render;
      tracks, xml, container, totalSize := p.tracks, p.xml, p.container, p.totalSize;
      this.report := report;
    }

    /** `AdmExportPlan::new`. */
    static method New(rate: nat, duration: nat, signals: nat, lfe: bool, dynamicObjects: nat, binding: BindingState,
        policy: Policy, render: XmlWriter)
        returns (r: Result<AdmExportPlan, AdmError>)
      requires rate < U32_LIMIT && duration < U64_LIMIT
      ensures r.Ok? <==> FreshPlan(rate, duration, signals, lfe, binding, policy, render).Ok?
      ensures r.Err? ==> FreshPlan(rate, duration, signals, lfe, binding, policy, render) == Err(r.error)
      ensures r.Ok? ==>
        && fresh(r.value) && r.value.Valid() && r.value.render == render
        && FreshPlan(rate, duration, signals, lfe, binding, policy, render) == Ok(r.value.Value())
        && r.value.report == FreshReport(dynamicObjects, binding, policy)
      ensures r.Ok? ==>
        var report := r.value.report;
        && report.policy == policy && report.semanticBinding == report.objectBinding == binding
        && report.objectsUnbound == dynamicObjects && report.objectsBound == report.boundPcm == 0
        && !report.dynamicExported && report.profile.None? && report.warnings == []
        && (report.unavailable.Some? <==> binding.Unresolved?)
    {
      hide PlanFor, MakeDocument, PlannedTracks, IsTrackTable;
      if rate != 48_000 && rate != 96_000 {
        return Err(InvalidScene);
      }
      if signals == 0 {
        return Err(NoReconstructionSignals);
      }
      if policy.Strict? && binding.Unresolved? {
        return Err(StrictUnresolvedBinding);
      }
      if signals > MAX_SIGNALS {
        return Err(InvalidScene);
      }
      var channels := signals + BedSize(lfe);
      if duration * channels >= U64_LIMIT || duration * channels * 3 >= U64_LIMIT {
        return Err(SizeOverflow);
      }
      var tracks := BuildTracks(signals, lfe);
      FreshTable(signals, lfe);
      var plan :- Assemble(rate, duration, signals, lfe, tracks, render);
      PlanIsLegal(rate, duration, signals, lfe, tracks, render);
      var built := new AdmExportPlan(plan, render, FreshReport(dynamicObjects, binding, policy));
      return Ok(built);
    }

    /** Recomputes container and size for the current document; on failure both keep their old values. */
    method RefreshSerializedLayout() returns (r: Result<(), AdmError>)
      requires Consistent()
      modifies this`container, this`totalSize
      ensures Consistent()
      ensures r.Ok? <==> PlanFor(sampleRate, duration, signals, lfe, tracks, render).Ok?
      ensures r.Ok? ==> Valid()
      ensures r.Err? ==> unchanged(this) && PlanFor(sampleRate, duration, signals, lfe, tracks, render) == Err(r.error)
    {
      hide MakeDocument, PlannedTracks, IsTrackTable, AdmBwfLayout;
      var layout :- SerializedLayout(tracks, signals, lfe, xml, dataBytes);
      container, totalSize := layout.0, layout.1;
      return Ok(());
    }

    /** `dynamic_object_count`. */
    method DynamicObjectCount() returns (count: nat)
      ensures count == CountReconstruction(tracks)
    {
      count := 0;
      for i := 0 to |tracks|
        invariant count == CountReconstruction(tracks[..i])
      {
        assert tracks[..i + 1][..i] == tracks[..i];
        if tracks[i].kind.Reconstruction? {
          count := count + 1;
        }
      }
      assert tracks[..|tracks|] == tracks;
    }

    /** `apply_decoded_joc_binding_metadata`. A metadata failure records the profile and changes nothing
        else; only a size overflow of the new document leaves new tracks beside the old layout. */
    method ApplyDecodedJocBindingMetadata(timeline: seq<MetadataUpdate>, profile: BindingProfile)
        returns (r: Result<(), AdmError>)
      requires Valid()
      modifies this
      ensures Consistent()
      ensures r.Ok? <==>
        && profile.jocObjectCount == signals && Admissible(timeline, signals, duration)
        && PlanFor(sampleRate, duration, signals, lfe, BoundTracks(old(tracks), timeline, duration), render).Ok?
      ensures profile.jocObjectCount == signals && Admissible(timeline, signals, duration) ==>
        && tracks == BoundTracks(old(tracks), timeline, duration)
        && report == old(report).(
             profile := Some(profile.codec), semanticBinding := ResolvedWithinCarrier,
               objectBinding := ResolvedWithinCarrier,
             boundPcm := signals, objectsBound := signals, objectsUnbound := 0, dynamicExported := true,
               unavailable := None)
        && (r.Err? ==> container == old(container) && totalSize == old(totalSize) && r.error == SizeOverflow)
      ensures !(profile.jocObjectCount == signals && Admissible(timeline, signals, duration)) ==>
        && r == Err(UnsupportedDynamicMetadata)
        && Value() == old(Value()) && report == old(report).(profile := Some(profile.codec))
      ensures r.Ok? || r == Err(UnsupportedDynamicMetadata) ==> Valid()
    {
      hide MakeDocument, PlannedTracks, IsTrackTable, ObjectOk, PlanFor;
      report := report.(profile := Some(profile.codec));
      SignalsCounted(tracks, signals, lfe);
      var dynamicObjects := DynamicObjectCount();
      if profile.jocObjectCount != signals || dynamicObjects != profile.jocObjectCount {
        return Err(UnsupportedDynamicMetadata);
      }
      var dynamicBlocks :- CollectBlocks(timeline, profile.jocObjectCount, duration);
      BoundTable(tracks, signals, lfe, timeline, duration);
      tracks := AttachBlocks(tracks, signals, lfe, timeline, duration, dynamicBlocks);
      report := report.(boundPcm := signals, objectsBound := signals, objectsUnbound := 0, dynamicExported := true,
        unavailable := None);
      report := report.(semanticBinding := ResolvedWithinCarrier, objectBinding := ResolvedWithinCarrier,
        profile := Some(profile.codec));
      xml := render(MakeDocument(sampleRate, duration, tracks));
      OnlyOverflow(sampleRate, duration, signals, lfe, tracks, render);
      r := RefreshSerializedLayout();
    }

    /** `set_decoded_binding_unavailable`: from any consistent state back to the freshly built plan. */
    method SetDecodedBindingUnavailable(reason: string) returns (r: Result<(), AdmError>)
      requires Consistent()
      modifies this
      ensures r.Ok? && Valid()
      ensures PlanFor(sampleRate, duration, signals, lfe, PlannedTracks(signals, lfe), render) == Ok(Value())
      ensures report == old(report).(
        boundPcm := 0, objectsBound := 0, objectsUnbound := signals, dynamicExported := false,
        unavailable := Some(reason), warnings := old(report.warnings) + [UNAVAILABLE_WARNING + reason])
    {
      hide MakeDocument, PlannedTracks, IsTrackTable, PlanFor;
      NeutralTable(tracks, signals, lfe);
      TableFacts(tracks, signals, lfe);
      FreshTable(signals, lfe);
      tracks := ClearTracks(tracks);
      assert tracks == PlannedTracks(signals, lfe);
      SignalsCounted(tracks, signals, lfe);
      var dynamicObjects := DynamicObjectCount();
      report := report.(boundPcm := 0, objectsBound := 0, objectsUnbound := dynamicObjects, dynamicExported := false,
        unavailable := Some(reason));
      report := report.(warnings := report.warnings + [UNAVAILABLE_WARNING + reason]);
      xml := render(MakeDocument(sampleRate, duration, tracks));
      r := RefreshSerializedLayout();
    }
  }

  /** The metadata of an admitted scene can be bound to a fresh plan. */
  ghost predicate Binds(rate: nat, duration: nat, signals: nat, lfe: bool, timeline: seq<MetadataUpdate>,
      render: XmlWriter)
    requires rate > 0
  {
    && Admissible(timeline, signals, duration)
    && PlanFor(rate, duration, signals, lfe, BoundTracks(PlannedTracks(signals, lfe), timeline, duration), render).Ok?
  }

  function CountDynamic(classes: seq<SceneClass>): nat {
    if classes == [] then 0
    else CountDynamic(classes[..|classes| - 1]) + if classes[|classes| - 1].Dynamic? then 1 else 0
  }

  /** `AdmExportPlan::from_scene`, behind the scene's own checks, for a scene with these object classes. A scene
      that claims a binding is refused unless its classes are admitted and every object has an update; beyond
      that only a strict export is refused, and a best-effort one is exactly the freshly built plan. */
  method FromScene(rate: nat, duration: nat, signals: nat, lfe: bool, classes: seq<SceneClass>, binding: BindingState,
                   policy: Policy, timeline: seq<MetadataUpdate>, describe: AdmError -> string, render: XmlWriter)
      returns (r: Result<AdmExportPlan, AdmError>)
    requires rate < U32_LIMIT && duration < U64_LIMIT
    ensures r.Ok? ==>
      && fresh(r.value) && r.value.Valid() && FreshPlan(rate, duration, signals, lfe, binding, policy, render).Ok? &&
        rate > 0
    ensures r.Ok? && binding.ResolvedWithinCarrier? ==> SceneAdmitted(signals, classes) && AllUpdated(timeline, signals)
    ensures r.Ok? && binding.ResolvedWithinCarrier? && Binds(rate, duration, signals, lfe, timeline, render) ==>
      && Ok(r.value.Value()) ==
        PlanFor(rate, duration, signals, lfe, BoundTracks(PlannedTracks(signals, lfe), timeline, duration), render)
      && r.value.report.dynamicExported
    ensures r.Ok? && !(binding.ResolvedWithinCarrier? && Binds(rate, duration, signals, lfe, timeline, render)) ==>
      && Ok(r.value.Value()) == FreshPlan(rate, duration, signals, lfe, binding, policy, render)
      && !r.value.report.dynamicExported && !(binding.ResolvedWithinCarrier? && policy.Strict?)
    ensures r.Err? ==>
      || FreshPlan(rate, duration, signals, lfe, binding, policy, render).Err?
      || (binding.ResolvedWithinCarrier? && !(SceneAdmitted(signals, classes) && AllUpdated(timeline, signals)))
      || (binding.ResolvedWithinCarrier? && policy.Strict? && !Binds(rate, duration, signals, lfe, timeline, render))
  {
    hide PlanFor, PlannedTracks, BoundTracks, Admissible, MakeDocument, IsTrackTable, SceneFacts, IsAdmitted,
         AllUpdated;
    var dynamicObjects := CountObjects(classes);
    var plan :- AdmExportPlan.New(rate, duration, signals, lfe, dynamicObjects, binding, policy, render);
    FreshFields(rate, duration, signals, lfe, binding, policy, render);
    if binding.ResolvedWithinCarrier? {
      SceneAdmission(signals, classes);
      var profile := AdmitDecodedJocBinding(SceneFacts(signals, classes));
      if profile.Err? {
        return Err(InvalidScene);
      }
      var views := BindSceneObjects(profile.value, signals, timeline);
      if views.Err? {
        return Err(InvalidScene);
      }
      var applied := plan.ApplyDecodedJocBindingMetadata(timeline, profile.value);
      if applied.Err? {
        if policy.Strict? {
          return Err(applied.error);
        }
        var undone := plan.SetDecodedBindingUnavailable(describe(applied.error));  // cannot fail
      }
    }
    return Ok(plan);
  }

  /** The dynamic objects of the scene. */
  method CountObjects(classes: seq<SceneClass>) returns (count: nat)
    ensures count == CountDynamic(classes)
  {
    count := 0;
    for i := 0 to |classes|
      invariant count == CountDynamic(classes[..i])
    {
      assert classes[..i + 1][..i] == classes[..i];
      if classes[i].Dynamic? {
        count := count + 1;
      }
    }
    assert classes[..|classes|] == classes;
  }

  lemma FreshFields(rate: nat, duration: nat, signals: nat, lfe: bool, binding: BindingState, policy: Policy,
      render: XmlWriter)
    requires FreshPlan(rate, duration, signals, lfe, binding, policy, render).Ok?
    ensures rate > 0
    ensures FreshPlan(rate, duration, signals, lfe, binding, policy, render) ==
      PlanFor(rate, duration, signals, lfe, PlannedTracks(signals, lfe), render)
    ensures var p := FreshPlan(rate, duration, signals, lfe, binding, policy, render).value;
      p.sampleRate == rate && p.duration == duration && p.signals == signals && p.lfe == lfe &&
        p.tracks == PlannedTracks(signals, lfe)
  {
    hide MakeDocument, PlannedTracks;
  }

  // ---------------------------------------------------------------- the loops

  /** The two loops that build a fresh track table. */
  method BuildTracks(signals: nat, lfe: bool) returns (tracks: seq<TrackDescriptor>)
    ensures tracks == PlannedTracks(signals, lfe)
  {
    hide UidOf, FormatId, TrackFormatId;
    tracks := [];
    if lfe {
      for index := 0 to |BED_CHANNELS|
        invariant |tracks| == index && forall i :: 0 <= i < index ==> tracks[i] == PlannedTrack(i, lfe)
      {
        var number := COUNTER_BASE + index;
        tracks := tracks + [TrackDescriptor(
          index + 1, UidOf(index + 1), FormatId(Channel, DirectSpeakers, number),
            FormatId(Pack, DirectSpeakers, COUNTER_BASE),
          FormatId(Stream, DirectSpeakers, number), TrackFormatId(DirectSpeakers, number), Bed(BED_CHANNELS[index]),
            false, [])];
      }
    }
    for index := 0 to signals
      invariant |tracks| == BedSize(lfe) + index && forall i :: 0 <= i < |tracks| ==> tracks[i] == PlannedTrack(i, lfe)
    {
      var offset := |tracks|;
      var number, pack := COUNTER_BASE + offset, COUNTER_BASE + index + (if lfe then 1 else 0);
      tracks := tracks + [TrackDescriptor(
        offset + 1, UidOf(offset + 1), FormatId(Channel, Objects, number), FormatId(Pack, Objects, pack),
        FormatId(Stream, Objects, number), TrackFormatId(Objects, number), Reconstruction(index), false, [])];
    }
    assert forall i :: 0 <= i < |tracks| ==> tracks[i] == PlannedTracks(signals, lfe)[i];
  }

  /** Container and size, from the encoded lengths of the three metadata chunks. */
  method SerializedLayout(tracks: seq<TrackDescriptor>, signals: nat, lfe: bool, xml: seq<byte>, dataBytes: nat)
      returns (r: Result<(Container, nat), AdmError>)
    requires IsTrackTable(tracks, signals, lfe)
    ensures r == LayoutOf(xml, |tracks|, dataBytes)
  {
    hide AdmBwfLayout, IsTrackTable;
    TableWritable(tracks, signals, lfe);
    hide Chna.Fits;
    if |xml| >= U64_LIMIT {
      return Err(SizeOverflow);
    }
    FitsMeans(tracks);
    var chna :- Chna.ChnaPayload(tracks);
    Dbmd.WrittenPayloadIsEmptyMetadata();
    return AdmBwfLayout(|xml|, |chna|, |Dbmd.DbmdPayload()|, dataBytes);
  }

  lemma FitsMeans(tracks: seq<TrackDescriptor>)
    requires forall i :: 0 <= i < |tracks| ==> Chna.Fits(tracks[i])
    ensures forall i :: 0 <= i < |tracks| ==> tracks[i].trackIndex < U16_LIMIT
    ensures forall i :: 0 <= i < |tracks| ==>
      IsAscii(tracks[i].uid) && IsAscii(tracks[i].trackId) && IsAscii(tracks[i].packId)
  {
    hide IsAscii;
    forall i | 0 <= i < |tracks|
      ensures tracks[i].trackIndex < U16_LIMIT && IsAscii(tracks[i].uid) && IsAscii(tracks[i].trackId) &&
        IsAscii(tracks[i].packId)
    {
      assert Chna.Fits(tracks[i]);
    }
  }

  method Assemble(rate: nat, duration: nat, signals: nat, lfe: bool, tracks: seq<TrackDescriptor>, render: XmlWriter)
      returns (r: Result<ExportPlan, AdmError>)
    requires rate > 0 && IsTrackTable(tracks, signals, lfe)
    ensures r == PlanFor(rate, duration, signals, lfe, tracks, render)
  {
    hide AdmBwfLayout, IsTrackTable, MakeDocument;
    var xml := render(MakeDocument(rate, duration, tracks));
    var dataBytes := duration * |tracks| * 3;
    var layout :- SerializedLayout(tracks, signals, lfe, xml, dataBytes);
    return Ok(ExportPlan(rate, duration, signals, lfe, tracks, xml, dataBytes, layout.0, layout.1));
  }

  /** The dynamic blocks of every bound object, in ordinal order. */
  method CollectBlocks(timeline: seq<MetadataUpdate>, count: nat, duration: nat)
      returns (r: Result<seq<seq<DynamicBlock>>, AdmError>)
    ensures r.Ok? <==> Admissible(timeline, count, duration)
    ensures r.Err? ==> r.error == UnsupportedDynamicMetadata
    ensures r.Ok? ==>
      && |r.value| == count
      && forall j :: 0 <= j < count ==>
        ObjectOk(timeline, j, duration) && r.value[j] == BlocksOf(Updates(timeline, j + 1), duration)
  {
    hide UpdatesOk, Updates, BlocksOf;
    var all: seq<seq<DynamicBlock>> := [];
    for ordinal := 0 to count
      invariant |all| == ordinal
      invariant forall j :: 0 <= j < ordinal ==>
        ObjectOk(timeline, j, duration) && all[j] == BlocksOf(Updates(timeline, j + 1), duration)
    {
      var totalIndex := ordinal + 1;
      var blocks := BuildBlocks(timeline, totalIndex, duration);
      if blocks.Err? {
        assert !ObjectOk(timeline, ordinal, duration);
        return Err(blocks.error);
      }
      all := all + [blocks.value];
    }
    return Ok(all);
  }

  /** The first track of a reconstruction signal. */
  method FindReconstruction(tracks: seq<TrackDescriptor>, index: nat) returns (found: Option<nat>)
    ensures found.Some? ==> found.value < |tracks| && tracks[found.value].kind == Reconstruction(index)
    ensures found.None? ==> forall i :: 0 <= i < |tracks| ==> tracks[i].kind != Reconstruction(index)
  {
    for i := 0 to |tracks|
      invariant forall k :: 0 <= k < i ==> tracks[k].kind != Reconstruction(index)
    {
      if tracks[i].kind == Reconstruction(index) {
        return Some(i);
      }
    }
    return None;
  }

  /** The tracks after objects `0..n` got their blocks. */
  ghost predicate Attached(before: seq<TrackDescriptor>, tracks: seq<TrackDescriptor>, timeline: seq<MetadataUpdate>,
      duration: nat, n: nat) {
    && |tracks| == |before|
    && forall i :: 0 <= i < |tracks| ==>
         tracks[i] == if before[i].kind.Reconstruction? && before[i].kind.index < n
           then BoundTrack(before[i], timeline, duration) else before[i]
  }

  method AttachBlocks(before: seq<TrackDescriptor>, signals: nat, lfe: bool, timeline: seq<MetadataUpdate>,
      duration: nat, dynamicBlocks: seq<seq<DynamicBlock>>)
      returns (tracks: seq<TrackDescriptor>)
    requires IsTrackTable(before, signals, lfe) && |dynamicBlocks| == signals
    requires forall j :: 0 <= j < signals ==>
      ObjectOk(timeline, j, duration) && dynamicBlocks[j] == BlocksOf(Updates(timeline, j + 1), duration)
    ensures tracks == BoundTracks(before, timeline, duration)
  {
    hide IsTrackTable, UpdatesOk, Updates, BlocksOf, ObjectOk;
    tracks := before;
    TableFacts(before, signals, lfe);
    for index := 0 to |dynamicBlocks|
      invariant Attached(before, tracks, timeline, duration, index)
    {
      KindInTable(before, signals, lfe, BedSize(lfe) + index);
      var found := FindReconstruction(tracks, index);
      assert tracks[BedSize(lfe) + index].kind == Reconstruction(index);
      KindsAreUnique(before, signals, lfe, found.value, index);
      tracks := tracks[found.value := tracks[found.value].(bound := true, blocks := dynamicBlocks[index])];
    }
    forall i | 0 <= i < |tracks|
      ensures tracks[i] == BoundTracks(before, timeline, duration)[i]
    {
      KindInTable(before, signals, lfe, i);
    }
  }

  lemma TableFacts(tracks: seq<TrackDescriptor>, signals: nat, lfe: bool)
    requires IsTrackTable(tracks, signals, lfe)
    ensures 1 <= signals <= MAX_SIGNALS && |tracks| == signals + BedSize(lfe)
  {
    hide InPlace;
  }

  lemma KindsAreUnique(tracks: seq<TrackDescriptor>, signals: nat, lfe: bool, i: nat, index: nat)
    requires IsTrackTable(tracks, signals, lfe) && i < |tracks| && tracks[i].kind == Reconstruction(index)
    ensures forall k :: 0 <= k < |tracks| && tracks[k].kind == Reconstruction(index) ==> k == i
  {
    hide IsTrackTable;
    KindInTable(tracks, signals, lfe, i);
    forall k | 0 <= k < |tracks| && tracks[k].kind == Reconstruction(index)
      ensures k == i
    {
      KindInTable(tracks, signals, lfe, k);
    }
  }

  /** Every track without its dynamic metadata. */
  method ClearTracks(before: seq<TrackDescriptor>) returns (tracks: seq<TrackDescriptor>)
    ensures |tracks| == |before| && forall i :: 0 <= i < |before| ==> tracks[i] == before[i].Neutral()
  {
    tracks := before;
    for i := 0 to |before|
      invariant |tracks| == |before|
      invariant forall k :: 0 <= k < |before| ==> tracks[k] == if k < i then before[k].Neutral() else before[k]
    {
      tracks := tracks[i := tracks[i].(bound := false, blocks := [])];
    }
  }

  function FreshReport(dynamicObjects: nat, binding: BindingState, policy: Policy): Report {
    Report(policy, binding, binding, None, 0, 0, dynamicObjects, false,
           if binding.Unresolved? then Some(UNRESOLVED_REASON) else None, [])
  }

  // ---------------------------------------------------------------- layouts

  lemma OnlyOverflow(rate: nat, duration: nat, signals: nat, lfe: bool, tracks: seq<TrackDescriptor>, render: XmlWriter)
    requires rate > 0
    ensures var p := PlanFor(rate, duration, signals, lfe, tracks, render); p.Err? ==> p.error == SizeOverflow
  {
    hide MakeDocument;
  }

  lemma PlanIsLegal(rate: nat, duration: nat, signals: nat, lfe: bool, tracks: seq<TrackDescriptor>, render: XmlWriter)
    requires (rate == 48_000 || rate == 96_000) && duration < U64_LIMIT && IsTrackTable(tracks, signals, lfe)
    requires PcmBytes(duration, |tracks|) < U64_LIMIT
    ensures var p := PlanFor(rate, duration, signals, lfe, tracks, render);
      p.Ok? ==>
        && LegalPlan(p.value) && p.value.xml == render(MakeDocument(rate, duration, tracks))
        && p.value.dataBytes == PcmBytes(duration, |tracks|) && p.value.tracks == tracks
        && p.value.sampleRate == rate && p.value.duration == duration && p.value.signals == signals &&
          p.value.lfe == lfe
  {
    hide MakeDocument, IsTrackTable, AdmBwfLayout;
  }

  /** The layout wraps for a plan the exporter builds: one signal, no bed, a document of any usual length. */
  lemma OversizedPlanIsBuilt(binding: BindingState, policy: Policy, render: XmlWriter)
    requires policy.Strict? ==> binding.ResolvedWithinCarrier?
    requires |render(MakeDocument(48_000, OVERSIZED_DURATION, PlannedTracks(1, false)))| + 4 +
      Chna.RECORD_SIZE < U32_LIMIT
    ensures var r := FreshPlan(48_000, OVERSIZED_DURATION, 1, false, binding, policy, render);
      && r.Ok? && LegalPlan(r.value) && !SizesFit(r.value)
      && r.value.container == Rf64 && r.value.totalSize == FileSize(r.value) - U64_LIMIT
  {
    hide *;
    var tracks := PlannedTracks(1, false);
    OversizedFacts(binding, policy, render);
    FreshTable(1, false);
    PlanIsLegal(48_000, OVERSIZED_DURATION, 1, false, tracks, render);
    var plan := FreshPlan(48_000, OVERSIZED_DURATION, 1, false, binding, policy, render).value;
    WrappedPlan(plan);
    PlanAnnouncesItsSize(plan);
    assert plan.totalSize != FileSize(plan);
  }

  lemma OversizedFacts(binding: BindingState, policy: Policy, render: XmlWriter)
    requires policy.Strict? ==> binding.ResolvedWithinCarrier?
    requires |render(MakeDocument(48_000, OVERSIZED_DURATION, PlannedTracks(1, false)))| + 4 +
      Chna.RECORD_SIZE < U32_LIMIT
    ensures OVERSIZED_DURATION < U64_LIMIT && |PlannedTracks(1, false)| == 1 &&
      PcmBytes(OVERSIZED_DURATION, 1) < U64_LIMIT
    ensures 1 <= MAX_SIGNALS && U32_LIMIT > 0
    ensures var r := FreshPlan(48_000, OVERSIZED_DURATION, 1, false, binding, policy, render);
      r.Ok? && r == PlanFor(48_000, OVERSIZED_DURATION, 1, false, PlannedTracks(1, false), render)
  {
    hide MakeDocument, PlannedTrack, AdmBwfLayout, ExactSize;
    OversizedProgrammeIsAnnounced(
      |render(MakeDocument(48_000, OVERSIZED_DURATION, PlannedTracks(1, false)))|, 4 + Chna.RECORD_SIZE);
  }

  lemma WrappedPlan(p: ExportPlan)
    requires LegalPlan(p) && |p.tracks| == 1 && p.duration == OVERSIZED_DURATION
    requires |p.xml| + 4 + Chna.RECORD_SIZE < U32_LIMIT
    ensures p.container == Rf64 && p.totalSize == FileSize(p) - U64_LIMIT < FileSize(p)
  {
    hide IsTrackTable, AdmBwfLayout, ExactSize;
    OversizedProgrammeIsAnnounced(|p.xml|, 4 + Chna.RECORD_SIZE);
  }
}
