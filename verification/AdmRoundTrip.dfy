/** What the exporter writes, the validator reads back. */
module AdmRoundTrip {
  import opened Wrappers
  import opened Bytes
  import opened Arithmetic
  import opened AdmTracks
  import opened AdmDocument
  import opened AdmDocumentCheck
  import opened AdmDocumentAccepted
  import opened AdmDocumentTheorem
  import opened AdmContainer
  import opened AdmFile
  import opened AdmWalk
  import AdmValidator
  import Chna
  import Dbmd

  // ---------------------------------------------------------------- spans of encoded chunks

  /** Where encoded chunks stand behind a 12-byte preamble. */
  function SpansFor(chunks: seq<RawChunk>): (spans: seq<Span>)
    ensures |spans| == |chunks|
  {
    seq(|chunks|, k requires 0 <= k < |chunks| =>
      Span(chunks[k].id, 12 + OffsetOf(EncodeChunks(chunks), k), chunks[k].declared, |chunks[k].payload|, None))
  }

  lemma SpansTile(chunks: seq<RawChunk>, k: nat)
    requires k <= |chunks|
    ensures EndOf(SpansFor(chunks)[..k]) == 12 + OffsetOf(EncodeChunks(chunks), k)
  {
    hide RawChunk.Encode;
    if k > 0 {
      PartAt(EncodeChunks(chunks), k - 1);
      EncodeLength(chunks[k - 1]);
    }
  }

  lemma EncodeLength(c: RawChunk)
    ensures |c.Encode()| == PaddedSize(|c.payload|)
  {
  }

  /** A chunk's identifier, size field and payload are found at its span. */
  lemma ChunkAt(pre: seq<byte>, chunks: seq<RawChunk>, k: nat)
    requires |pre| == 12 && k < |chunks| && chunks[k].declared < U32_LIMIT
    ensures var file, s := pre + Flatten(EncodeChunks(chunks)), SpansFor(chunks)[k];
      && s.start == EndOf(SpansFor(chunks)[..k]) && s.End() <= |file|
      && file[s.start..s.start + 4] == s.id && WordAt(file, s.start + 4, 4) == s.declared
      && Body(file, s) == chunks[k].payload
  {
    hide RawChunk.Encode, WordAt;
    var parts, file, s := EncodeChunks(chunks), pre + Flatten(EncodeChunks(chunks)), SpansFor(chunks)[k];
    SpansTile(chunks, k);
    PartAt(parts, k);
    EncodeLength(chunks[k]);
    assert file[s.start..s.End()] == parts[k] == chunks[k].Encode();
    EncodeFields(chunks[k]);
    FieldsIn(file, s, chunks[k].Encode());
  }

  lemma EncodeFields(c: RawChunk)
    requires c.declared < U32_LIMIT
    ensures var bs := c.Encode();
      |bs| >= 8 + |c.payload| && bs[0..4] == c.id && WordAt(bs, 4, 4) == c.declared &&
        bs[8..8 + |c.payload|] == c.payload
  {
    WordRoundTrip(c.declared);
    assert c.Encode()[4..8] == Le(c.declared, 4);
  }

  lemma FieldsIn(file: seq<byte>, s: Span, bs: seq<byte>)
    requires s.End() <= |file| && file[s.start..s.End()] == bs && |bs| >= 8 + s.size
    ensures file[s.start..s.start + 4] == bs[0..4] && WordAt(file, s.start + 4, 4) == WordAt(bs, 4, 4)
    ensures Body(file, s) == bs[8..8 + s.size]
  {
    SliceOfSlice(file, s.start, s.End(), 0, 4);
    SliceOfSlice(file, s.start, s.End(), 4, 8);
    SliceOfSlice(file, s.start, s.End(), 8, 8 + s.size);
  }

  lemma WholeLength(pre: seq<byte>, chunks: seq<RawChunk>)
    requires |pre| == 12
    ensures EndOf(SpansFor(chunks)) == |pre + Flatten(EncodeChunks(chunks))|
  {
    SpansTile(chunks, |chunks|);
    assert SpansFor(chunks)[..|chunks|] == SpansFor(chunks);
    assert EncodeChunks(chunks)[..|chunks|] == EncodeChunks(chunks);
  }

  ghost predicate DistinctSpans(spans: seq<Span>) {
    forall i, j :: 0 <= i < j < |spans| ==> spans[i].id != spans[j].id
  }

  lemma {:induction false} SpanWithId(spans: seq<Span>, id: FourCc)
    ensures SpanWith(spans, id).Some? ==> SpanWith(spans, id).value.id == id
  {
    if spans != [] {
      SpanWithId(spans[..|spans| - 1], id);
    }
  }

  lemma SpanWithDistinct(spans: seq<Span>, k: nat)
    requires DistinctSpans(spans) && k < |spans|
    ensures SpanWith(spans, spans[k].id) == Some(spans[k])
    ensures SpanWith(spans[..k], spans[k].id) == None
  {
    SpanWithMember(spans, spans[k].id);
    SpanWithId(spans, spans[k].id);
    SpanWithMember(spans[..k], spans[k].id);
    assert forall i :: 0 <= i < k ==> spans[..k][i] == spans[i];
  }

  // ---------------------------------------------------------------- the plan's chunks

  /** A plan whose announced size is true and whose chunks' size fields do not overflow. */
  ghost predicate Completes(p: ExportPlan, pcm: seq<byte>) {
    LegalPlan(p) && SizesFit(p) && |pcm| == p.dataBytes && |p.xml| < U32_LIMIT
  }

  function KindFor(c: Container): Kind {
    if c.Riff? then RiffFile else Rf64File
  }

  /** `ReadChunks` finds these chunks in the plan's file. */
  ghost predicate Encodes(p: ExportPlan, pcm: seq<byte>, file: seq<byte>, chunks: seq<RawChunk>) {
    && p.totalSize >= 8 && (forall i :: 0 <= i < |p.tracks| ==> Chna.Fits(p.tracks[i]))
    && file == FileBytes(p, pcm) && |file| == p.totalSize
    && chunks == FileChunks(p, pcm)
    && file == Preamble(p) + Flatten(EncodeChunks(chunks))
  }

  lemma PlanEncodes(p: ExportPlan, pcm: seq<byte>)
    requires Completes(p, pcm)
    ensures p.totalSize >= 8 && forall i :: 0 <= i < |p.tracks| ==> Chna.Fits(p.tracks[i])
    ensures Encodes(p, pcm, FileBytes(p, pcm), FileChunks(p, pcm))
  {
    hide LegalPlan, SizesFit, FileBytes, FileChunks, Preamble, EncodeChunks, Chna.Fits;
    FileHasPlannedSize(p, pcm);
    FileIsChunks(p, pcm);
  }

  /** Size facts the container decision gives. */
  lemma ContainerFacts(p: ExportPlan, pcm: seq<byte>)
    requires Completes(p, pcm)
    ensures 12 <= p.totalSize < U64_LIMIT && 1 <= |p.tracks| <= 124
    ensures p.container.Riff? ==> p.totalSize - 8 < U32_LIMIT && p.dataBytes < SENTINEL && |p.xml| < SENTINEL
    ensures p.dataBytes % (|p.tracks| * 3) == 0 && p.dataBytes / (|p.tracks| * 3) == p.duration
  {
    TrackCount(p);
    LayoutExactness(|p.xml|, 4 + 40 * |p.tracks|, 6, p.dataBytes);
    RiffIffItFits(|p.xml|, 4 + 40 * |p.tracks|, 6, p.dataBytes);
    FramesDivide(p.duration, |p.tracks|);
    hide IsTrackTable, AdmBwfLayout;
  }

  lemma FramesDivide(duration: nat, channels: nat)
    requires channels > 0
    ensures duration * channels * 3 % (channels * 3) == 0 && duration * channels * 3 / (channels * 3) == duration
  {
    assert duration * channels * 3 == duration * (channels * 3);
    QuotientUnique(duration * channels * 3, channels * 3, duration, 0);
  }

  lemma ChunkFacts(p: ExportPlan, pcm: seq<byte>, file: seq<byte>, c: seq<RawChunk>)
    requires Encodes(p, pcm, file, c)
    ensures |c| == 6
    ensures c[0].id == (if p.container.Riff? then JUNK else DS64) &&
      c[0].declared == |c[0].payload| == p.container.Reserve()
    ensures c[0].payload == ReservePayload(p)
    ensures c[1] == RawChunk(FMT, 16, FmtPayload(p)) && |c[1].payload| == 16
    ensures c[2] == RawChunk(DATA, DataSizeField(p), pcm)
    ensures c[3] == RawChunk(AXML, |p.xml|, p.xml)
    ensures c[4].id == CHNA && c[4].payload == Chna.Payload(p.tracks) &&
      c[4].declared == |c[4].payload| == 4 + 40 * |p.tracks|
    ensures c[5] == RawChunk(DBMD, 6, Dbmd.DbmdPayload()) && |c[5].payload| == 6
  {
    hide FileBytes, Preamble, EncodeChunks, Chna.Fits, ReservePayload, FmtPayload, Chna.Payload, Dbmd.DbmdPayload;
    Dbmd.WrittenPayloadIsEmptyMetadata();
  }

  lemma IdsDiffer(p: ExportPlan, pcm: seq<byte>, file: seq<byte>, c: seq<RawChunk>)
    requires Encodes(p, pcm, file, c)
    ensures DistinctSpans(SpansFor(c)) && |SpansFor(c)| == 6
    ensures var s := SpansFor(c);
      s[1].id == FMT && s[2].id == DATA && s[3].id == AXML && s[4].id == CHNA && s[5].id == DBMD
    ensures SpansFor(c)[0].id == if p.container.Riff? then JUNK else DS64
  {
    ChunkFacts(p, pcm, file, c);
    SixNames(SpansFor(c), if p.container.Riff? then JUNK else DS64);
    hide Encodes, EncodeChunks, JUNK, DS64, FMT, DATA, AXML, CHNA, DBMD;
  }

  lemma SixNames(s: seq<Span>, first: FourCc)
    requires |s| == 6 && (first == JUNK || first == DS64) && s[0].id == first
    requires s[1].id == FMT && s[2].id == DATA && s[3].id == AXML && s[4].id == CHNA && s[5].id == DBMD
    ensures DistinctSpans(s)
  {
    ChunkNamesDiffer();
    hide JUNK, DS64, FMT, DATA, AXML, CHNA, DBMD;
  }

  /** The preamble of the file. */
  lemma PreambleReads(p: ExportPlan, pcm: seq<byte>, file: seq<byte>, c: seq<RawChunk>)
    requires Completes(p, pcm) && Encodes(p, pcm, file, c)
    ensures HeaderOk(file) && FileKind(file) == KindFor(p.container)
  {
    hide *;
    ContainerFacts(p, pcm);
    EncodedPreamble(p, pcm, file, c);
    PreambleFields(p);
    LengthIs(p, pcm, file, c);
    HeaderAt(file, Preamble(p), p.container, p.totalSize);
  }

  lemma EncodedPreamble(p: ExportPlan, pcm: seq<byte>, file: seq<byte>, c: seq<RawChunk>)
    requires Encodes(p, pcm, file, c)
    ensures p.totalSize >= 8 && |file| >= 12 && file[..12] == Preamble(p)
  {
    hide FileBytes, FileChunks, EncodeChunks, Flatten, Chna.Fits;
  }

  lemma HeaderAt(file: seq<byte>, pre: seq<byte>, container: Container, total: nat)
    requires |file| == total >= 12 && |pre| == 12 && file[..12] == pre
    requires pre[0..4] == (if container.Riff? then RIFF else RF64) && pre[8..12] == WAVE
    requires pre[4..8] == Le(if container.Riff? then total - 8 else SENTINEL, 4)
    requires container.Riff? ==> total - 8 < U32_LIMIT
    ensures HeaderOk(file) && FileKind(file) == KindFor(container)
  {
    hide Le, FromLe;
    ChunkNamesDiffer();
    WordRoundTrip(if container.Riff? then total - 8 else SENTINEL);
    assert file[0..4] == pre[0..4] && file[4..8] == pre[4..8] && file[8..12] == pre[8..12];
    hide RIFF, RF64, BW64, WAVE;
  }

  lemma PreambleFields(p: ExportPlan)
    requires p.totalSize >= 8
    ensures Preamble(p)[0..4] == (if p.container.Riff? then RIFF else RF64) && Preamble(p)[8..12] == WAVE
    ensures Preamble(p)[4..8] == Le(if p.container.Riff? then p.totalSize - 8 else SENTINEL, 4)
  {
    hide Le;
  }

  // ---------------------------------------------------------------- the directory and the format

  lemma DirectoryReads(p: ExportPlan)
    requires 8 <= p.totalSize < U64_LIMIT && p.dataBytes < U64_LIMIT && p.duration < U64_LIMIT && p.container.Rf64?
    ensures Ds64Ok(ReservePayload(p))
    ensures Ds64Of(ReservePayload(p)) == Ds64(p.totalSize - 8, p.dataBytes, p.duration, [])
  {
    WordRoundTrip(p.totalSize - 8);
    WordRoundTrip(p.dataBytes);
    WordRoundTrip(p.duration);
    WordRoundTrip(0);
    ReserveFields(p);
    hide ReservePayload, Le, FromLe;
    NoEntries(ReservePayload(p));
  }

  lemma NoEntries(payload: seq<byte>)
    requires |payload| == 28 && WordAt(payload, 24, 4) == 0
    ensures Ds64Ok(payload)
    ensures Ds64Of(payload) == Ds64(WordAt(payload, 0, 8), WordAt(payload, 8, 8), WordAt(payload, 16, 8), [])
  {
    hide WordAt;
  }

  lemma ReserveFields(p: ExportPlan)
    requires p.totalSize >= 8
    ensures var payload := ReservePayload(p);
      && payload[0..8] == Le(p.totalSize - 8, 8) && payload[8..16] == Le(p.dataBytes, 8)
      && payload[16..24] == Le(p.duration, 8) && payload[24..28] == Le(0, 4)
  {
    hide Le;
  }

  lemma FormatReads(p: ExportPlan)
    requires (p.sampleRate == 48_000 || p.sampleRate == 96_000) && 1 <= |p.tracks| <= 124
    ensures FmtOk(FmtPayload(p)) && FormatOf(FmtPayload(p)) == PcmFormat(|p.tracks|, p.sampleRate)
    ensures BlockAlign(FmtPayload(p)) == |p.tracks| * 3
  {
    hide Le, FmtPayload, FromLe;
    var channels := |p.tracks|;
    var byteRate := p.sampleRate * (channels * 3);
    WordRoundTrip(1);
    WordRoundTrip(channels);
    WordRoundTrip(p.sampleRate);
    WordRoundTrip(byteRate);
    WordRoundTrip(channels * 3);
    WordRoundTrip(24);
    FormatFields(p);
    RateFits(p.sampleRate, channels);
  }

  lemma RateFits(rate: nat, channels: nat)
    requires (rate == 48_000 || rate == 96_000) && channels <= 124
    ensures rate * (channels * 3) < U32_LIMIT
  {
  }

  lemma FormatFields(p: ExportPlan)
    ensures var payload, channels := FmtPayload(p), |p.tracks|;
      && payload[0..2] == Le(1, 2) && payload[2..4] == Le(channels, 2) && payload[4..8] == Le(p.sampleRate, 4)
      && payload[8..12] == Le(p.sampleRate * (channels * 3), 4) && payload[12..14] == Le(channels * 3, 2) &&
        payload[14..16] == Le(24, 2)
  {
    hide Le;
    var channels := |p.tracks|;
    var head := Le(1, 2) + Le(channels, 2) + Le(p.sampleRate, 4);
    var tail := Le(p.sampleRate * (channels * 3), 4) + Le(channels * 3, 2) + Le(24, 2);
    assert FmtPayload(p) == head + tail;
    assert tail[0..4] == Le(p.sampleRate * (channels * 3), 4) && tail[4..6] == Le(channels * 3, 2) &&
      tail[6..8] == Le(24, 2);
    TailSlice(head, tail, 0, 4);
    TailSlice(head, tail, 4, 6);
    TailSlice(head, tail, 6, 8);
    hide FmtPayload;
  }

  lemma TailSlice<T>(head: seq<T>, tail: seq<T>, from: nat, to: nat)
    requires from <= to <= |tail|
    ensures (head + tail)[|head| + from..|head| + to] == tail[from..to]
  {
  }

  // ---------------------------------------------------------------- the chunk structure

  /** The directory in force behind the first chunk. */
  lemma PlanDirectory(p: ExportPlan, pcm: seq<byte>, file: seq<byte>, c: seq<RawChunk>, k: nat)
    requires Completes(p, pcm) && Encodes(p, pcm, file, c) && 1 <= k <= 6
    ensures |SpansFor(c)| == 6
    ensures Directory(file, KindFor(p.container), SpansFor(c)[..k]) ==
      if p.container.Riff? then None else Some(Ds64(p.totalSize - 8, p.dataBytes, p.duration, []))
  {
    hide *;
    ContainerFacts(p, pcm);
    PlanBounds(p, pcm);
    ChunkFacts(p, pcm, file, c);
    EncodedAt(p, pcm, file, c, 0);
    IdsDiffer(p, pcm, file, c);
    if p.container.Rf64? {
      DirectoryReads(p);
    }
    DirectoryOfFirst(file, p.container, SpansFor(c), k, c[0].payload);
  }

  lemma DirectoryOfFirst(file: seq<byte>, container: Container, spans: seq<Span>, k: nat, payload: seq<byte>)
    requires 1 <= k <= |spans| && spans[0].id == (if container.Riff? then JUNK else DS64)
    requires spans[0].End() <= |file| && Body(file, spans[0]) == payload
    requires container.Rf64? ==> Ds64Ok(payload)
    ensures Directory(file, KindFor(container), spans[..k]) == if container.Riff? then None else Some(Ds64Of(payload))
  {
    hide Ds64Ok, Ds64Of, Body;
  }

  lemma PlanBounds(p: ExportPlan, pcm: seq<byte>)
    requires Completes(p, pcm)
    ensures p.dataBytes < U64_LIMIT && p.duration < U64_LIMIT && (p.sampleRate == 48_000 || p.sampleRate == 96_000)
    ensures |pcm| == p.dataBytes && |p.xml| < U32_LIMIT
  {
    hide IsTrackTable, AdmBwfLayout, SizesFit;
  }

  /** `ChunkAt` for the plan's file. */
  lemma EncodedAt(p: ExportPlan, pcm: seq<byte>, file: seq<byte>, c: seq<RawChunk>, k: nat)
    requires Completes(p, pcm) && Encodes(p, pcm, file, c) && k < |c|
    ensures |c| == 6
    ensures var s := SpansFor(c)[k];
      && s.start == EndOf(SpansFor(c)[..k]) && s.End() <= |file|
      && file[s.start..s.start + 4] == s.id && WordAt(file, s.start + 4, 4) == s.declared
      && Body(file, s) == c[k].payload
  {
    hide *;
    EncodedForm(p, pcm, file, c);
    DeclaredFit(p, pcm, file, c);
    ChunkAt(Preamble(p), c, k);
  }

  lemma EncodedForm(p: ExportPlan, pcm: seq<byte>, file: seq<byte>, c: seq<RawChunk>)
    requires Encodes(p, pcm, file, c)
    ensures p.totalSize >= 8 && |c| == 6
    ensures |Preamble(p)| == 12 && file == Preamble(p) + Flatten(EncodeChunks(c))
  {
    hide FileBytes, EncodeChunks, Flatten, Chna.Fits;
  }

  lemma DeclaredFit(p: ExportPlan, pcm: seq<byte>, file: seq<byte>, c: seq<RawChunk>)
    requires Completes(p, pcm) && Encodes(p, pcm, file, c)
    ensures |c| == 6 && forall k :: 0 <= k < 6 ==> c[k].declared < U32_LIMIT
  {
    hide *;
    ContainerFacts(p, pcm);
    PlanBounds(p, pcm);
    ChunkFacts(p, pcm, file, c);
    SmallFields(p);
  }

  lemma SmallFields(p: ExportPlan)
    ensures p.container.Reserve() <= 64 && SENTINEL < U32_LIMIT
    ensures p.container.Rf64? ==> DataSizeField(p) == SENTINEL
    ensures U32_LIMIT > 10_000 && (p.container.Riff? ==> DataSizeField(p) == p.dataBytes && p.container.Reserve() == 64)
    ensures p.container.Rf64? ==> p.container.Reserve() == 28
  {
  }

  /** Chunk `k` of the file follows its predecessors legally; only the document chunk can be too long. */
  lemma PlanFollows(p: ExportPlan, pcm: seq<byte>, file: seq<byte>, c: seq<RawChunk>, k: nat)
    requires Completes(p, pcm) && Encodes(p, pcm, file, c) && k < 6
    requires k == 3 ==> |p.xml| <= MAX_AXML
    ensures |SpansFor(c)| == 6
    ensures Follows(file, KindFor(p.container), SpansFor(c)[..k], SpansFor(c)[k])
  {
    hide *;
    IdsDiffer(p, pcm, file, c);
    EncodedSize(p, pcm, file, c, k);
    SpanWithDistinct(SpansFor(c), k);
    PlanSize(p, pcm, file, c, k);
    PlanContents(p, pcm, file, c, k);
    FollowsParts(file, KindFor(p.container), SpansFor(c)[..k], SpansFor(c)[k]);
  }

  lemma EncodedSize(p: ExportPlan, pcm: seq<byte>, file: seq<byte>, c: seq<RawChunk>, k: nat)
    requires Completes(p, pcm) && Encodes(p, pcm, file, c) && k < 6
    ensures |SpansFor(c)| == 6
    ensures var s := SpansFor(c)[k];
      && s.start == EndOf(SpansFor(c)[..k]) && s.End() <= |file|
      && file[s.start..s.start + 4] == s.id && WordAt(file, s.start + 4, 4) == s.declared
  {
    hide *;
    IdsDiffer(p, pcm, file, c);
    EncodedAt(p, pcm, file, c, k);
  }

  lemma PlanSize(p: ExportPlan, pcm: seq<byte>, file: seq<byte>, c: seq<RawChunk>, k: nat)
    requires Completes(p, pcm) && Encodes(p, pcm, file, c) && k < 6
    requires k == 3 ==> |p.xml| <= MAX_AXML
    ensures |SpansFor(c)| == 6
    ensures SizeOk(KindFor(p.container), Directory(file, KindFor(p.container), SpansFor(c)[..k]), SpansFor(c)[k])
  {
    hide *;
    IdsDiffer(p, pcm, file, c);
    SpanSizes(p, pcm, file, c);
    if k == 2 {
      PlanDirectory(p, pcm, file, c, k);
      DataSizeOk(p, SpansFor(c)[2]);
    } else {
      Limits(SpansFor(c)[k]);
      PlainSizeOk(KindFor(p.container), Directory(file, KindFor(p.container), SpansFor(c)[..k]), SpansFor(c)[k]);
    }
  }

  lemma PlainSizeOk(kind: Kind, directory: Option<Ds64>, s: Span)
    requires s.declared == s.size && s.size < 0x1000_0000 && s.entry == None
    ensures SizeOk(kind, directory, s)
  {
  }

  lemma DataSizeOk(p: ExportPlan, s: Span)
    requires s.id == DATA && s.size == p.dataBytes && s.declared == DataSizeField(p) && s.entry == None
    requires p.container.Riff? ==> s.size < SENTINEL
    requires p.totalSize >= 8
    ensures SizeOk(KindFor(p.container),
      if p.container.Riff? then None else Some(Ds64(p.totalSize - 8, p.dataBytes, p.duration, [])), s)
  {
  }

  lemma SpanSizes(p: ExportPlan, pcm: seq<byte>, file: seq<byte>, c: seq<RawChunk>)
    requires Completes(p, pcm) && Encodes(p, pcm, file, c)
    ensures |SpansFor(c)| == 6
    ensures var s := SpansFor(c);
      && (forall k :: 0 <= k < 6 ==> s[k].entry == None)
      && (forall k :: 0 <= k < 6 && k != 2 ==> s[k].declared == s[k].size)
      && s[0].size <= 64 && s[1].size == 16 && s[3].size == |p.xml| && s[4].size < 5000 && s[5].size == 6
      && (forall k :: 0 <= k < 6 && k != 2 && k != 3 ==> s[k].size < 5000) && p.totalSize >= 8
      && (p.container.Rf64? ==> s[0].size == 28)
      && s[2].size == p.dataBytes && s[2].declared == DataSizeField(p)
      && (p.container.Riff? ==> s[2].size < SENTINEL)
  {
    hide *;
    ChunkFacts(p, pcm, file, c);
    ContainerFacts(p, pcm);
    PlanBounds(p, pcm);
    SmallFields(p);
    SpansAre(c);
  }

  lemma SpansAre(c: seq<RawChunk>)
    ensures |SpansFor(c)| == |c|
    ensures forall k :: 0 <= k < |c| ==>
      SpansFor(c)[k].entry == None && SpansFor(c)[k].declared == c[k].declared && SpansFor(c)[k].size == |c[k].payload|
  {
    hide EncodeChunks;
  }

  lemma PlanContents(p: ExportPlan, pcm: seq<byte>, file: seq<byte>, c: seq<RawChunk>, k: nat)
    requires Completes(p, pcm) && Encodes(p, pcm, file, c) && k < 6
    requires k == 3 ==> |p.xml| <= MAX_AXML
    ensures |SpansFor(c)| == 6 && SpansFor(c)[k].End() <= |file|
    ensures SpanWith(SpansFor(c)[..k], SpansFor(c)[k].id) == None ==>
      ContentsOk(file, KindFor(p.container), SpansFor(c)[..k], SpansFor(c)[k])
  {
    hide *;
    IdsDiffer(p, pcm, file, c);
    SpanSizes(p, pcm, file, c);
    EncodedAt(p, pcm, file, c, k);
    Contents(file, KindFor(p.container), SpansFor(c)[..k], SpansFor(c)[k]);
    ChunkNamesDiffer();
    if k == 0 {
      FirstContents(p, pcm, file, c);
    }
    Limits(SpansFor(c)[k]);
    KindIs(p.container);
  }

  lemma KindIs(c: Container)
    ensures KindFor(c) == if c.Riff? then RiffFile else Rf64File
  {
  }

  lemma Limits(s: Span)
    ensures MAX_AXML == 0x400_0000 && MAX_CHNA >= 5000 && MAX_DBMD >= 6
    ensures s.id == FMT || s.id == DATA || s.id == AXML || s.id == CHNA || s.id == DBMD <==> IsExclusive(s.id)
  {
    hide FMT, DATA, AXML, CHNA, DBMD;
  }

  lemma FirstContents(p: ExportPlan, pcm: seq<byte>, file: seq<byte>, c: seq<RawChunk>)
    requires Completes(p, pcm) && Encodes(p, pcm, file, c)
    ensures |SpansFor(c)| == 6 && SpansFor(c)[0].start == 12 && SpansFor(c)[0].End() <= |file|
    ensures p.container.Rf64? ==>
      var body := Body(file, SpansFor(c)[0]);
      Ds64Ok(body) && Ds64Of(body).riffSize + 8 == |file|
  {
    EncodedAt(p, pcm, file, c, 0);
    IdsDiffer(p, pcm, file, c);
    ContainerFacts(p, pcm);
    PlanBounds(p, pcm);
    ChunkFacts(p, pcm, file, c);
    LengthIs(p, pcm, file, c);
    if p.container.Rf64? {
      DirectoryReads(p);
    }
    hide Completes, Encodes, EncodeChunks, Ds64Ok, Ds64Of, ReservePayload, Body, SpansFor;
  }

  lemma LengthIs(p: ExportPlan, pcm: seq<byte>, file: seq<byte>, c: seq<RawChunk>)
    requires Encodes(p, pcm, file, c)
    ensures |file| == p.totalSize
  {
  }

  lemma {:induction false} PlanChain(p: ExportPlan, pcm: seq<byte>, file: seq<byte>, c: seq<RawChunk>, k: nat)
    requires Completes(p, pcm) && Encodes(p, pcm, file, c) && k <= 6
    requires k > 3 ==> |p.xml| <= MAX_AXML
    ensures |SpansFor(c)| == 6
    ensures Chain(file, KindFor(p.container), SpansFor(c)[..k])
  {
    hide *;
    IdsDiffer(p, pcm, file, c);
    var kind, spans := KindFor(p.container), SpansFor(c);
    if k == 0 {
      NoSpansChain(file, kind, spans[..k]);
    } else {
      PlanChain(p, pcm, file, c, k - 1);
      PlanFollows(p, pcm, file, c, k - 1);
      assert spans[..k] == spans[..k - 1] + [spans[k - 1]];
      ChainStep(file, kind, spans[..k - 1], spans[k - 1]);
    }
  }

  lemma NoSpansChain(file: seq<byte>, kind: Kind, spans: seq<Span>)
    requires spans == []
    ensures Chain(file, kind, spans)
  {
  }

  lemma ChainStep(file: seq<byte>, kind: Kind, spans: seq<Span>, s: Span)
    requires Chain(file, kind, spans) && Follows(file, kind, spans, s)
    ensures Chain(file, kind, spans + [s])
  {
    hide Follows;
    assert (spans + [s])[..|spans|] == spans;
  }

  /** A plan whose document fits the limit has a legal chunk structure. */
  lemma PlanStructure(p: ExportPlan, pcm: seq<byte>, file: seq<byte>, c: seq<RawChunk>)
    requires Completes(p, pcm) && Encodes(p, pcm, file, c) && |p.xml| <= MAX_AXML
    ensures |SpansFor(c)| == 6
    ensures Walked(file, KindFor(p.container), SpansFor(c))
  {
    hide *;
    IdsDiffer(p, pcm, file, c);
    var spans := SpansFor(c);
    PlanChain(p, pcm, file, c, 6);
    PlanDirectory(p, pcm, file, c, 6);
    assert spans[..6] == spans;
    EncodedForm(p, pcm, file, c);
    WholeLength(Preamble(p), c);
    SpanSizes(p, pcm, file, c);
    KindIs(p.container);
    NothingToMatch(file, p.container, spans);
  }

  lemma NothingToMatch(file: seq<byte>, container: Container, spans: seq<Span>)
    requires |spans| == 6 && forall k :: 0 <= k < 6 ==> spans[k].entry == None
    requires spans[0].id == (if container.Riff? then JUNK else DS64)
    requires Chain(file, KindFor(container), spans) && EndOf(spans) == |file|
    requires Directory(file, KindFor(container), spans).Some? ==>
      Directory(file, KindFor(container), spans).value.table == []
    ensures Walked(file, KindFor(container), spans)
  {
    hide Chain, Directory, EndOf;
  }

  /** The five metadata and data chunks, read back. */
  lemma PlanBodies(p: ExportPlan, pcm: seq<byte>, file: seq<byte>, c: seq<RawChunk>)
    requires Completes(p, pcm) && Encodes(p, pcm, file, c)
    ensures var spans := SpansFor(c);
      && Complete(spans)
      && ChunkBody(file, spans, FMT) == FmtPayload(p) && ChunkBody(file, spans, DATA) == pcm
      && ChunkBody(file, spans, AXML) == p.xml && ChunkBody(file, spans, CHNA) == Chna.Payload(p.tracks)
      && ChunkBody(file, spans, DBMD) == Dbmd.DbmdPayload()
      && SpanWith(spans, DATA).value.size == p.dataBytes
  {
    hide *;
    IdsDiffer(p, pcm, file, c);
    ChunkFacts(p, pcm, file, c);
    SpanSizes(p, pcm, file, c);
    var spans := SpansFor(c);
    forall k | 1 <= k < 6
      ensures SpanWith(spans, spans[k].id) == Some(spans[k]) && ChunkBody(file, spans, spans[k].id) == c[k].payload
    {
      SpanWithDistinct(spans, k);
      EncodedAt(p, pcm, file, c, k);
      BodyOf(file, spans, k);
    }
    AllPresent(spans);
  }

  lemma BodyOf(file: seq<byte>, spans: seq<Span>, k: nat)
    requires k < |spans| && SpanWith(spans, spans[k].id) == Some(spans[k]) && spans[k].End() <= |file|
    ensures ChunkBody(file, spans, spans[k].id) == Body(file, spans[k])
  {
    hide SpanWith, Body;
  }

  lemma AllPresent(spans: seq<Span>)
    requires |spans| == 6 && spans[1].id == FMT && spans[2].id == DATA && spans[3].id == AXML && spans[4].id == CHNA &&
      spans[5].id == DBMD
    requires forall k :: 1 <= k < 6 ==> SpanWith(spans, spans[k].id) == Some(spans[k])
    ensures Complete(spans)
  {
    hide SpanWith;
    assert SpanWith(spans, spans[1].id).Some? && SpanWith(spans, spans[2].id).Some? &&
      SpanWith(spans, spans[3].id).Some?;
    assert SpanWith(spans, spans[4].id).Some? && SpanWith(spans, spans[5].id).Some?;
  }

  lemma PlanData(p: ExportPlan, pcm: seq<byte>, file: seq<byte>, c: seq<RawChunk>)
    requires Completes(p, pcm) && Encodes(p, pcm, file, c)
    ensures |SpansFor(c)| == 6
    ensures DataOk(file, KindFor(p.container), SpansFor(c))
    ensures SpanWith(SpansFor(c), DATA).Some? && FmtOk(ChunkBody(file, SpansFor(c), FMT))
    ensures SampleCount(file, SpansFor(c)) == p.duration
    ensures FormatOf(ChunkBody(file, SpansFor(c), FMT)) == PcmFormat(|p.tracks|, p.sampleRate)
  {
    hide *;
    IdsDiffer(p, pcm, file, c);
    PlanBodies(p, pcm, file, c);
    CompleteHasData(SpansFor(c));
    ContainerFacts(p, pcm);
    PlanBounds(p, pcm);
    FormatReads(p);
    PlanDirectory(p, pcm, file, c, 6);
    assert SpansFor(c)[..6] == SpansFor(c);
    DataAgrees(p, file, SpansFor(c));
  }

  lemma CompleteHasData(spans: seq<Span>)
    requires Complete(spans)
    ensures SpanWith(spans, DATA).Some?
  {
    hide SpanWith;
  }

  lemma DataAgrees(p: ExportPlan, file: seq<byte>, spans: seq<Span>)
    requires FmtOk(ChunkBody(file, spans, FMT)) && SpanWith(spans, DATA).Some? &&
      SpanWith(spans, DATA).value.size == p.dataBytes
    requires BlockAlign(ChunkBody(file, spans, FMT)) == |p.tracks| * 3 && |p.tracks| > 0 && p.totalSize >= 8
    requires p.dataBytes % (|p.tracks| * 3) == 0 && p.dataBytes / (|p.tracks| * 3) == p.duration
    requires Directory(file, KindFor(p.container), spans) ==
      if p.container.Riff? then None else Some(Ds64(p.totalSize - 8, p.dataBytes, p.duration, []))
    ensures DataOk(file, KindFor(p.container), spans)
    ensures SampleCount(file, spans) == p.duration
  {
    hide ChunkBody, FmtOk, SpanWith, Directory, BlockAlign;
  }

  // ---------------------------------------------------------------- the round trip

  /** Reading the document chunk gives back the plan's document. */
  ghost predicate Reparses(p: ExportPlan, parse: XmlReader) {
    (p.sampleRate == 48_000 || p.sampleRate == 96_000) &&
      parse(p.xml) == Some(MakeDocument(p.sampleRate, p.duration, p.tracks))
  }

  lemma PlanMetadata(p: ExportPlan, pcm: seq<byte>, file: seq<byte>, c: seq<RawChunk>, parse: XmlReader)
    requires Completes(p, pcm) && Encodes(p, pcm, file, c) && Reparses(p, parse)
    ensures FmtOk(ChunkBody(file, SpansFor(c), FMT)) && SpanWith(SpansFor(c), DATA).Some?
    ensures MetadataOk(file, SpansFor(c), parse) <==> BlocksNumberable(p.tracks)
    ensures Chna.ChnaOf(Chna.Payload(p.tracks), |p.tracks|, Chna.RecordsFor(p.tracks))
  {
    hide *;
    PlanBodies(p, pcm, file, c);
    PlanData(p, pcm, file, c);
    TablePlanned(p, pcm);
    ContainerFacts(p, pcm);
    Chna.ChnaRoundTrip(p.tracks, p.signals, p.lfe);
    AdmValidator.ChnaUnique(Chna.Payload(p.tracks), |p.tracks|, Chna.RecordsFor(p.tracks));
    EmptyDbmd();
    DocumentAcceptance(p.sampleRate, p.duration, p.tracks, p.signals, p.lfe);
    MetadataUnfolds(p, file, SpansFor(c), parse);
  }

  lemma TablePlanned(p: ExportPlan, pcm: seq<byte>)
    requires Completes(p, pcm)
    ensures Planned(p.sampleRate, p.duration, p.tracks, p.signals, p.lfe) && IsTrackTable(p.tracks, p.signals, p.lfe)
  {
    hide IsTrackTable, AdmBwfLayout, SizesFit;
  }

  lemma EmptyDbmd()
    ensures Dbmd.Accepted(Dbmd.DbmdPayload())
  {
    Dbmd.WrittenPayloadIsEmptyMetadata();
    hide Dbmd.DbmdOf, Dbmd.DbmdPayload;
  }

  lemma MetadataUnfolds(p: ExportPlan, file: seq<byte>, spans: seq<Span>, parse: XmlReader)
    requires Reparses(p, parse) && p.sampleRate > 0
    requires FmtOk(ChunkBody(file, spans, FMT)) && SpanWith(spans, DATA).Some?
    requires FormatOf(ChunkBody(file, spans, FMT)) == PcmFormat(|p.tracks|, p.sampleRate) &&
      SampleCount(file, spans) == p.duration
    requires forall i :: 0 <= i < |p.tracks| ==> Chna.Fits(p.tracks[i])
    requires 1 <= |p.tracks| <= 124
    requires ChunkBody(file, spans, AXML) == p.xml && ChunkBody(file, spans, CHNA) == Chna.Payload(p.tracks)
    requires ChunkBody(file, spans, DBMD) == Dbmd.DbmdPayload() && Dbmd.Accepted(Dbmd.DbmdPayload())
    requires Chna.ChnaOf(Chna.Payload(p.tracks), |p.tracks|, Chna.RecordsFor(p.tracks))
    requires forall other :: Chna.ChnaOf(Chna.Payload(p.tracks), |p.tracks|, other) ==>
      other == Chna.RecordsFor(p.tracks)
    ensures MetadataOk(file, spans, parse) <==>
      DocumentAccepted(MakeDocument(p.sampleRate, p.duration, p.tracks), p.sampleRate, p.duration,
        Chna.RecordsFor(p.tracks))
  {
    hide FmtOk, FormatOf, SampleCount, ChunkBody, SpanWith, Chna.Payload, Chna.ChnaOf, Chna.RecordsFor, Dbmd.Accepted,
         Dbmd.DbmdPayload;
    hide MakeDocument, DocumentAccepted, Chna.Fits;
  }

  /** An oversized document leaves no legal structure. */
  lemma TooLong(p: ExportPlan, pcm: seq<byte>, file: seq<byte>, c: seq<RawChunk>, model: seq<Span>)
    requires Completes(p, pcm) && Encodes(p, pcm, file, c) && |p.xml| > MAX_AXML
    ensures !Walked(file, KindFor(p.container), model)
  {
    hide *;
    if Walked(file, KindFor(p.container), model) {
      IdsDiffer(p, pcm, file, c);
      var spans := SpansFor(c);
      PrefixForced(p, pcm, file, c, model, 3);
      EncodedSize(p, pcm, file, c, 3);
      SpanSizes(p, pcm, file, c);
      PlanDirectory(p, pcm, file, c, 3);
      StartBeforeEnd(spans[3]);
      NextSpan(file, KindFor(p.container), model, spans[..3]);
      FollowsEnd(file, KindFor(p.container), spans[..3], model[3]);
      FollowsSizeOk(file, KindFor(p.container), spans[..3], model[3]);
      Contents(file, KindFor(p.container), spans[..3], model[3]);
      LongDocument(p, Directory(file, KindFor(p.container), spans[..3]), model[3]);
    }
  }

  lemma StartBeforeEnd(s: Span)
    ensures s.start + 8 <= s.End()
  {
  }

  lemma LongDocument(p: ExportPlan, directory: Option<Ds64>, s: Span)
    requires p.totalSize >= 8
    requires directory == if p.container.Riff? then None else Some(Ds64(p.totalSize - 8, p.dataBytes, p.duration, []))
    requires s.id == AXML && s.declared == |p.xml| && SizeOk(KindFor(p.container), directory, s)
    ensures s.size == |p.xml|
  {
    ChunkNamesDiffer();
    hide AXML, DATA;
  }

  lemma {:induction false} PrefixForced(p: ExportPlan, pcm: seq<byte>, file: seq<byte>, c: seq<RawChunk>,
      model: seq<Span>, k: nat)
    requires Completes(p, pcm) && Encodes(p, pcm, file, c) && Walked(file, KindFor(p.container), model) && k <= 3
    ensures |SpansFor(c)| == 6 && SpansFor(c)[..k] <= model
  {
    hide *;
    IdsDiffer(p, pcm, file, c);
    if k > 0 {
      var s := SpansFor(c)[k - 1];
      PrefixForced(p, pcm, file, c, model, k - 1);
      EncodedSize(p, pcm, file, c, k - 1);
      PlanSize(p, pcm, file, c, k - 1);
      SpanSizes(p, pcm, file, c);
      StartBeforeEnd(s);
      OnlySpan(file, KindFor(p.container), SpansFor(c)[..k - 1], s);
      assert SpansFor(c)[..k] == SpansFor(c)[..k - 1] + [s];
    }
  }

  /** Round trip: a completed file is accepted if and only if its document chunk is at most 64 MiB and
      its blocks can be numbered; the validator then finds exactly the plan's container, chunks, format,
      samples and identifiers. */
  lemma ContainerRoundTrip(p: ExportPlan, pcm: seq<byte>, parse: XmlReader)
    requires Completes(p, pcm) && Reparses(p, parse)
    ensures p.totalSize >= 8 && forall i :: 0 <= i < |p.tracks| ==> Chna.Fits(p.tracks[i])
    ensures var file, spans := FileBytes(p, pcm), SpansFor(FileChunks(p, pcm));
      && |file| == p.totalSize
      && (Accepted(file, parse) <==> |p.xml| <= MAX_AXML && BlocksNumberable(p.tracks))
      && (Accepted(file, parse) ==> LegalFile(file, spans, parse))
      && HeaderOk(file) && FileKind(file) == KindFor(p.container)
      && FmtOk(ChunkBody(file, spans, FMT)) &&
        FormatOf(ChunkBody(file, spans, FMT)) == PcmFormat(|p.tracks|, p.sampleRate)
      && ChunkBody(file, spans, DATA) == pcm && ChunkBody(file, spans, AXML) == p.xml
      && Chna.ChnaOf(ChunkBody(file, spans, CHNA), |p.tracks|, Chna.RecordsFor(p.tracks))
  {
    hide *;
    PlanEncodes(p, pcm);
    var file, c := FileBytes(p, pcm), FileChunks(p, pcm);
    PreambleReads(p, pcm, file, c);
    LengthIs(p, pcm, file, c);
    PlanBodies(p, pcm, file, c);
    PlanData(p, pcm, file, c);
    PlanMetadata(p, pcm, file, c, parse);
    if |p.xml| <= MAX_AXML {
      PlanStructure(p, pcm, file, c);
      AdmValidator.LegalParts(file, KindFor(p.container), SpansFor(c), parse);
    }
    forall spans | LegalFile(file, spans, parse)
      ensures |p.xml| <= MAX_AXML && spans == SpansFor(c)
    {
      AdmValidator.LegalIsWalked(file, spans, parse);
      if |p.xml| <= MAX_AXML {
        StructureIsUnique(file, KindFor(p.container), spans, SpansFor(c));
      } else {
        TooLong(p, pcm, file, c, spans);
      }
    }
    AdmValidator.AcceptedIsLegal(file, parse);
  }
}
