/** From a plan through the streaming writer to the validator's report. */
module AdmEndToEnd {
  import opened Wrappers
  import opened Bytes
  import opened AdmErrors
  import opened AdmTracks
  import opened AdmDocument
  import opened AdmDocumentTheorem
  import opened AdmContainer
  import opened AdmFile
  import opened AdmPcm
  import opened AdmPlan
  import opened AdmRoundTrip
  import AdmStreaming
  import AdmValidator
  import AdmWriter
  import Chna

  /** The document chunk of the plan's file is legal and reads back as the plan's document. */
  ghost predicate Readable(p: ExportPlan, parse: XmlReader) {
    && Reparses(p, parse) && |p.xml| <= MAX_AXML && BlocksNumberable(p.tracks)
  }

  /** The strict policy has what it demands. */
  predicate PolicyMet(report: Report) {
    !(report.policy.Strict? && report.objectBinding.ResolvedWithinCarrier? && !report.dynamicExported)
  }

  /** `chunks` is a split of a representable programme of the plan's length. */
  ghost predicate IsProgramme(p: ExportPlan, chunks: seq<Chunk>) {
    && p.signals >= 1 && |chunks| < U64_LIMIT && AdmStreaming.AllShaped(p, chunks)
    && AdmStreaming.TotalFrames(chunks) == p.duration
    && Representable(AdmStreaming.JoinAll(p, chunks), p.duration)
  }

  lemma ValidPlanIsLegal(plan: AdmExportPlan)
    requires plan.Valid()
    ensures LegalPlan(plan.Value()) &&
      plan.Value().xml == plan.render(MakeDocument(plan.sampleRate, plan.duration, plan.tracks))
  {
    PlanIsLegal(plan.sampleRate, plan.duration, plan.signals, plan.lfe, plan.tracks, plan.render);
    hide LegalPlan, PlanFor, MakeDocument, IsTrackTable;
  }

  /** Exports a programme in any split and validates the result: the file is accepted, and the report states
      the plan's rate, channels, sample bytes, document size and identifier count. */
  method ExportAndValidate(plan: AdmExportPlan, chunks: seq<Chunk>, parse: XmlReader)
      returns (r: Result<AdmValidator.Summary, AdmError>)
    requires plan.Valid() && SizesFit(plan.Value()) && PolicyMet(plan.report)
    requires IsProgramme(plan.Value(), chunks) && Readable(plan.Value(), parse)
    ensures r.Ok?
    ensures r.value.kind == KindFor(plan.container)
    ensures r.value.rate == plan.sampleRate &&
      r.value.channels == r.value.chnaTracks == r.value.chnaUids == |plan.tracks|
    ensures r.value.dataBytes == plan.dataBytes && r.value.axmlBytes == |plan.xml|
  {
    hide *;
    var p := plan.Value();
    ValueIs(plan);
    ValidPlanIsLegal(plan);
    ProgrammeParts(p, chunks);
    ReadableParts(p, parse);
    PolicyIs(plan.report);
    var file := AdmStreaming.ExportInChunks(p, plan.report, chunks);
    ghost var pcm := Interleave(AdmStreaming.JoinAll(p, chunks), p.duration, p.duration);
    PcmIsPlanned(p, AdmStreaming.JoinAll(p, chunks), pcm);
    CompletesIs(p, pcm);
    ContainerRoundTrip(p, pcm, parse);
    PlanEncodes(p, pcm);
    PlanBodies(p, pcm, file.value, FileChunks(p, pcm));
    PlanData(p, pcm, file.value, FileChunks(p, pcm));
    FileFits(p);
    r := AdmValidator.ValidateReader(file.value, parse);
    Described(file.value, SpansFor(FileChunks(p, pcm)), r.value);
    RecordCount(p.tracks);
  }

  lemma ValueIs(plan: AdmExportPlan)
    ensures var p := plan.Value();
      && p.sampleRate == plan.sampleRate && p.duration == plan.duration && p.tracks == plan.tracks && p.xml == plan.xml
      && p.dataBytes == plan.dataBytes && p.container == plan.container && p.signals == plan.signals &&
        p.lfe == plan.lfe
  {
  }

  lemma ProgrammeParts(p: ExportPlan, chunks: seq<Chunk>)
    requires IsProgramme(p, chunks)
    ensures p.signals >= 1 && |chunks| < U64_LIMIT && AdmStreaming.AllShaped(p, chunks)
    ensures AdmStreaming.TotalFrames(chunks) == p.duration
    ensures IsRectangle(AdmStreaming.JoinAll(p, chunks), p.duration) &&
      Representable(AdmStreaming.JoinAll(p, chunks), p.duration)
    ensures AdmWriter.HasTopology(p, AdmStreaming.JoinAll(p, chunks))
  {
    hide AdmStreaming.AllShaped, Representable, IsRectangle, AdmWriter.HasTopology;
  }

  lemma ReadableParts(p: ExportPlan, parse: XmlReader)
    requires Readable(p, parse)
    ensures Reparses(p, parse) && |p.xml| <= MAX_AXML < U32_LIMIT && BlocksNumberable(p.tracks)
  {
    hide Reparses, BlocksNumberable;
  }

  lemma PolicyIs(report: Report)
    requires PolicyMet(report)
    ensures !(report.policy.Strict? && report.objectBinding.ResolvedWithinCarrier? && !report.dynamicExported)
  {
  }

  lemma PcmIsPlanned(p: ExportPlan, c: Chunk, pcm: seq<byte>)
    requires LegalPlan(p) && AdmWriter.HasTopology(p, c) && IsRectangle(c, p.duration) &&
      pcm == Interleave(c, p.duration, p.duration)
    ensures |pcm| == p.dataBytes
  {
    AdmWriter.PcmLength(p, c, p.duration);
    hide LegalPlan, Interleave;
  }

  lemma CompletesIs(p: ExportPlan, pcm: seq<byte>)
    requires LegalPlan(p) && SizesFit(p) && |pcm| == p.dataBytes && |p.xml| < U32_LIMIT
    ensures Completes(p, pcm)
  {
    hide LegalPlan, SizesFit;
  }

  lemma FileFits(p: ExportPlan)
    requires LegalPlan(p) && SizesFit(p)
    ensures p.totalSize < U64_LIMIT
  {
    PlanAnnouncesItsSize(p);
    hide LegalPlan;
    FileSmaller(p);
  }

  lemma FileSmaller(p: ExportPlan)
    requires SizesFit(p)
    ensures FileSize(p) < U64_LIMIT
  {
  }

  /** What a described report says, for spans whose contents are known. */
  lemma Described(file: seq<byte>, spans: seq<Span>, s: AdmValidator.Summary)
    requires HeaderOk(file) && FmtOk(ChunkBody(file, spans, FMT)) && SpanWith(spans, DATA).Some?
    requires AdmValidator.Describes(file, spans, s)
    ensures s.kind == FileKind(file) && s.rate == FormatOf(ChunkBody(file, spans, FMT)).rate
    ensures s.channels == s.chnaTracks == FormatOf(ChunkBody(file, spans, FMT)).channels
    ensures s.dataBytes == SpanWith(spans, DATA).value.size && s.axmlBytes == |ChunkBody(file, spans, AXML)|
    ensures forall records :: Chna.ChnaOf(ChunkBody(file, spans, CHNA), s.channels, records) ==> s.chnaUids == |records|
  {
    hide HeaderOk, FmtOk, ChunkBody, SpanWith, Chna.ChnaOf;
  }

  lemma RecordCount(tracks: seq<TrackDescriptor>)
    ensures |Chna.RecordsFor(tracks)| == |tracks|
  {
  }
}
