/** The RIFF/RF64 container of an export: size planning and the bytes around the PCM data. */
module AdmContainer {
  import opened Wrappers
  import opened Bytes
  import opened AdmErrors
  import opened AdmTracks
  import opened Chna
  import opened Dbmd

  datatype Container = Riff | Rf64 {
    /** Payload of the chunk reserved in front of `fmt `: JUNK or ds64. */
    function Reserve(): nat {
      if Riff? then 64 else 28
    }
  }

  // ---------------------------------------------------------------- size planning

  /** Header, payload and padding of one chunk, in exact arithmetic. */
  function PaddedSize(payload: nat): nat {
    8 + payload + payload % 2
  }

  /** `chunk_total_size`: the same sum in unchecked `u64` arithmetic. */
  function ChunkTotalSize(payload: nat): nat {
    PaddedSize(payload) % U64_LIMIT
  }

  /** The exact size of a file whose chunks have these payloads. */
  function ExactSize(reserve: nat, axml: nat, chna: nat, dbmd: nat, data: nat): nat {
    12 + PaddedSize(reserve) + 24 + PaddedSize(data) + PaddedSize(axml) + PaddedSize(chna) + PaddedSize(dbmd)
  }

  /** `adm_bwf_total_size`: the sum of chunk sizes is checked, the sizes themselves are not. Partial
      sums only grow, so one of the checked additions fails exactly when the whole sum overflows. */
  function AdmBwfTotalSize(reserve: nat, axml: nat, chna: nat, dbmd: nat, data: nat): Result<nat, AdmError> {
    var total := 12 + ChunkTotalSize(reserve) + 24 + ChunkTotalSize(data) + ChunkTotalSize(axml) +
      ChunkTotalSize(chna) + ChunkTotalSize(dbmd);
    if total < U64_LIMIT then Ok(total) else Err(SizeOverflow)
  }

  function AdmBwfLayout(axml: nat, chna: nat, dbmd: nat, data: nat): Result<(Container, nat), AdmError> {
    var riff := AdmBwfTotalSize(64, axml, chna, dbmd, data);
    if riff.Err? then Err(riff.error)
    else if data < U32_LIMIT && riff.value >= 8 && riff.value - 8 < U32_LIMIT then Ok((Riff, riff.value))
    else
      var rf64 := AdmBwfTotalSize(28, axml, chna, dbmd, data);
      if rf64.Err? then Err(rf64.error) else Ok((Rf64, rf64.value))
  }

  /** The layout announces the true file size if and only if the RIFF form of the file fits 64 bits. */
  lemma LayoutExactness(axml: nat, chna: nat, dbmd: nat, data: nat)
    requires axml < U64_LIMIT && chna < U64_LIMIT && dbmd < U64_LIMIT && data < U64_LIMIT
    ensures var r := AdmBwfLayout(axml, chna, dbmd, data);
      (r.Ok? && r.value.1 == ExactSize(r.value.0.Reserve(), axml, chna, dbmd, data))
        <==> ExactSize(64, axml, chna, dbmd, data) < U64_LIMIT
  {
    WrapAtMostOnce(axml);
    WrapAtMostOnce(chna);
    WrapAtMostOnce(dbmd);
    WrapAtMostOnce(data);
  }

  lemma WrapAtMostOnce(payload: nat)
    requires payload < U64_LIMIT
    ensures ChunkTotalSize(payload) == if PaddedSize(payload) < U64_LIMIT then PaddedSize(payload)
      else PaddedSize(payload) - U64_LIMIT
  {
  }

  lemma TotalIsExact(reserve: nat, axml: nat, chna: nat, dbmd: nat, data: nat)
    requires reserve <= 64 && ExactSize(64, axml, chna, dbmd, data) < U64_LIMIT
    ensures AdmBwfTotalSize(reserve, axml, chna, dbmd, data) == Ok(ExactSize(reserve, axml, chna, dbmd, data))
    ensures ExactSize(reserve, axml, chna, dbmd, data) >= 8
  {
    WrapAtMostOnce(reserve);
    WrapAtMostOnce(axml);
    WrapAtMostOnce(chna);
    WrapAtMostOnce(dbmd);
    WrapAtMostOnce(data);
    hide ChunkTotalSize;
    assert PaddedSize(reserve) <= PaddedSize(64);
  }

  /** When sizes are true, RIFF is chosen exactly when both of its 32-bit size fields can hold their values. */
  lemma RiffIffItFits(axml: nat, chna: nat, dbmd: nat, data: nat)
    requires ExactSize(64, axml, chna, dbmd, data) < U64_LIMIT
    ensures var r := AdmBwfLayout(axml, chna, dbmd, data);
      r.Ok? && (r.value.0 == Riff <==> data < U32_LIMIT && ExactSize(64, axml, chna, dbmd, data) - 8 < U32_LIMIT)
  {
    TotalIsExact(64, axml, chna, dbmd, data);
    TotalIsExact(28, axml, chna, dbmd, data);
    hide AdmBwfTotalSize, ExactSize;
  }

  /** A mono programme whose PCM is 2^64 - 1 bytes. */
  const OVERSIZED_DURATION: nat := 6_148_914_691_236_517_205

  /** The unchecked chunk size is reachable: with documents of any usual length that programme is announced
      as an RF64 file exactly 2^64 bytes shorter than it is, instead of being refused. */
  lemma OversizedProgrammeIsAnnounced(axml: nat, chna: nat)
    requires axml + chna < U32_LIMIT
    ensures OVERSIZED_DURATION * 1 * 3 == U64_LIMIT - 1
    ensures var r := AdmBwfLayout(axml, chna, 6, U64_LIMIT - 1);
      r.Ok? && r.value.0 == Rf64 && r.value.1 == ExactSize(28, axml, chna, 6, U64_LIMIT - 1) - U64_LIMIT
  {
    assert ChunkTotalSize(U64_LIMIT - 1) == 8 && PaddedSize(U64_LIMIT - 1) == U64_LIMIT + 8;
    assert ChunkTotalSize(axml) == PaddedSize(axml) && ChunkTotalSize(chna) == PaddedSize(chna);
    assert ChunkTotalSize(6) == PaddedSize(6) == 14;
    assert ChunkTotalSize(64) == 72 && ChunkTotalSize(28) == PaddedSize(28) == 36;
    hide ChunkTotalSize, PaddedSize;
  }

  // ---------------------------------------------------------------- chunks

  type FourCc = id: seq<byte> | |id| == 4 witness [0, 0, 0, 0]

  const RIFF: FourCc := [0x52, 0x49, 0x46, 0x46]
  const RF64: FourCc := [0x52, 0x46, 0x36, 0x34]
  const BW64: FourCc := [0x42, 0x57, 0x36, 0x34]
  const WAVE: FourCc := [0x57, 0x41, 0x56, 0x45]
  const JUNK: FourCc := [0x4A, 0x55, 0x4E, 0x4B]
  const DS64: FourCc := [0x64, 0x73, 0x36, 0x34]
  const FMT: FourCc := [0x66, 0x6D, 0x74, 0x20]
  const DATA: FourCc := [0x64, 0x61, 0x74, 0x61]
  const AXML: FourCc := [0x61, 0x78, 0x6D, 0x6C]
  const CHNA: FourCc := [0x63, 0x68, 0x6E, 0x61]
  const DBMD: FourCc := [0x64, 0x62, 0x6D, 0x64]

  lemma ChunkNamesDiffer()
    ensures JUNK != DS64 && JUNK != FMT && JUNK != DATA && JUNK != AXML && JUNK != CHNA && JUNK != DBMD
    ensures DS64 != FMT && DS64 != DATA && DS64 != AXML && DS64 != CHNA && DS64 != DBMD
    ensures FMT != DATA && FMT != AXML && FMT != CHNA && FMT != DBMD
    ensures DATA != AXML && DATA != CHNA && DATA != DBMD && AXML != CHNA && AXML != DBMD && CHNA != DBMD
    ensures RIFF != RF64 && RIFF != BW64 && RF64 != BW64
  {
    assert JUNK[0] == 0x4A && DS64[1] == 0x73 && FMT[0] == 0x66 && AXML[0] == 0x61 && CHNA[0] == 0x63;
    assert DATA[1] == 0x61 && DBMD[1] == 0x62 && DS64[0] == 0x64 && DATA[0] == 0x64 && DBMD[0] == 0x64;
    assert RIFF[1] == 0x49 && RF64[1] == 0x46 && RF64[0] == 0x52 && BW64[0] == 0x42;
  }

  /** A chunk as stored: its declared 32-bit size may be the RF64 sentinel. */
  datatype RawChunk = RawChunk(id: FourCc, declared: nat, payload: seq<byte>) {
    function Encode(): (bs: seq<byte>)
      ensures |bs| == PaddedSize(|payload|)
    {
      id + Le(declared, 4) + payload + Zeros(|payload| % 2)
    }
  }

  // ---------------------------------------------------------------- the plan's bytes

  /** The immutable facts about an export that decide the file. */
  datatype ExportPlan = ExportPlan(
    sampleRate: nat, duration: nat, signals: nat, lfe: bool, tracks: seq<TrackDescriptor>,
    xml: seq<byte>, dataBytes: nat, container: Container, totalSize: nat)

  const SENTINEL: nat := U32_LIMIT - 1

  /** A plan whose sizes are those of its tracks and document. */
  ghost predicate LegalPlan(p: ExportPlan) {
    && (p.sampleRate == 48_000 || p.sampleRate == 96_000)
    && p.duration < U64_LIMIT
    && IsTrackTable(p.tracks, p.signals, p.lfe)
    && p.dataBytes == p.duration * |p.tracks| * 3 < U64_LIMIT
    && |p.xml| < U64_LIMIT
    && AdmBwfLayout(|p.xml|, 4 + RECORD_SIZE * |p.tracks|, 6, p.dataBytes) == Ok((p.container, p.totalSize))
  }

  /** The exact size of the plan's file in its container. */
  function FileSize(p: ExportPlan): nat {
    ExactSize(p.container.Reserve(), |p.xml|, 4 + RECORD_SIZE * |p.tracks|, 6, p.dataBytes)
  }

  /** The plan's announced size is its file's size. */
  predicate SizesFit(p: ExportPlan) {
    ExactSize(64, |p.xml|, 4 + RECORD_SIZE * |p.tracks|, 6, p.dataBytes) < U64_LIMIT
  }

  /** The plans that announce their true size are exactly those that fit: the rest wrapped. */
  lemma PlanAnnouncesItsSize(p: ExportPlan)
    requires LegalPlan(p)
    ensures p.totalSize == FileSize(p) <==> SizesFit(p)
  {
    TrackCount(p);
    LayoutExactness(|p.xml|, 4 + RECORD_SIZE * |p.tracks|, 6, p.dataBytes);
  }

  lemma TrackCount(p: ExportPlan)
    requires LegalPlan(p)
    ensures 1 <= |p.tracks| <= 124
  {
  }

  function ReservePayload(p: ExportPlan): (bs: seq<byte>)
    requires p.totalSize >= 8
    ensures |bs| == p.container.Reserve()
  {
    Le(p.totalSize - 8, 8) + Le(p.dataBytes, 8) + Le(p.duration, 8) + Le(0, 4) +
      Zeros(if p.container.Riff? then 36 else 0)
  }

  function FmtPayload(p: ExportPlan): (bs: seq<byte>)
    ensures |bs| == 16
  {
    var channels := |p.tracks|;
    Le(1, 2) + Le(channels, 2) + Le(p.sampleRate, 4) + Le(p.sampleRate * (channels * 3), 4) + Le(channels * 3, 2) +
      Le(24, 2)
  }

  function Preamble(p: ExportPlan): (bs: seq<byte>)
    requires p.totalSize >= 8
    ensures |bs| == 12
  {
    (if p.container.Riff? then RIFF + Le(p.totalSize - 8, 4) else RF64 + Le(SENTINEL, 4)) + WAVE
  }

  function DataSizeField(p: ExportPlan): nat {
    if p.container.Riff? then p.dataBytes else SENTINEL
  }

  /** Everything in front of the PCM samples. */
  function HeaderBytes(p: ExportPlan): seq<byte>
    requires p.totalSize >= 8
  {
    Preamble(p) +
    RawChunk(if p.container.Riff? then JUNK else DS64, p.container.Reserve(), ReservePayload(p)).Encode() +
    RawChunk(FMT, 16, FmtPayload(p)).Encode() +
    DATA + Le(DataSizeField(p), 4)
  }

  /** Everything behind the padded PCM samples. */
  function MetadataBytes(p: ExportPlan): seq<byte>
    requires forall i :: 0 <= i < |p.tracks| ==> Fits(p.tracks[i])
  {
    RawChunk(AXML, |p.xml|, p.xml).Encode() +
    RawChunk(CHNA, 4 + RECORD_SIZE * |p.tracks|, Payload(p.tracks)).Encode() +
    RawChunk(DBMD, 6, DbmdPayload()).Encode()
  }

  /** The whole file for a given PCM payload. */
  function FileBytes(p: ExportPlan, pcm: seq<byte>): seq<byte>
    requires p.totalSize >= 8
    requires forall i :: 0 <= i < |p.tracks| ==> Fits(p.tracks[i])
  {
    HeaderBytes(p) + pcm + Zeros(|pcm| % 2) + MetadataBytes(p)
  }

  /** The six chunks of the file. */
  function FileChunks(p: ExportPlan, pcm: seq<byte>): seq<RawChunk>
    requires p.totalSize >= 8
    requires forall i :: 0 <= i < |p.tracks| ==> Fits(p.tracks[i])
  {
    [ RawChunk(if p.container.Riff? then JUNK else DS64, p.container.Reserve(), ReservePayload(p)),
      RawChunk(FMT, 16, FmtPayload(p)),
      RawChunk(DATA, DataSizeField(p), pcm),
      RawChunk(AXML, |p.xml|, p.xml),
      RawChunk(CHNA, 4 + RECORD_SIZE * |p.tracks|, Payload(p.tracks)),
      RawChunk(DBMD, 6, DbmdPayload()) ]
  }

  function EncodeChunks(chunks: seq<RawChunk>): (parts: seq<seq<byte>>)
    ensures |parts| == |chunks|
  {
    seq(|chunks|, i requires 0 <= i < |chunks| => chunks[i].Encode())
  }

  /** The writer's separate writes add up to a preamble and six chunks. */
  lemma FileIsChunks(p: ExportPlan, pcm: seq<byte>)
    requires p.totalSize >= 8
    requires forall i :: 0 <= i < |p.tracks| ==> Fits(p.tracks[i])
    ensures FileBytes(p, pcm) == Preamble(p) + Flatten(EncodeChunks(FileChunks(p, pcm)))
  {
    var c := FileChunks(p, pcm);
    var parts := EncodeChunks(c);
    FilePieces(p, pcm);
    hide *;
    DataChunkIs(RawChunk(DATA, DataSizeField(p), pcm));
    SixParts(parts);
    Regroup(Preamble(p), parts[0], parts[1], DATA + Le(DataSizeField(p), 4), pcm, Zeros(|pcm| % 2), parts[3], parts[4],
      parts[5]);
  }

  /** The file piece by piece. */
  lemma FilePieces(p: ExportPlan, pcm: seq<byte>)
    requires p.totalSize >= 8
    requires forall i :: 0 <= i < |p.tracks| ==> Fits(p.tracks[i])
    ensures var c, e := FileChunks(p, pcm), EncodeChunks(FileChunks(p, pcm));
      && |e| == |c| == 6 && c[2] == RawChunk(DATA, DataSizeField(p), pcm) && e[2] == c[2].Encode()
      && FileBytes(p, pcm) ==
        (Preamble(p) + e[0] + e[1] + (DATA + Le(DataSizeField(p), 4))) + pcm + Zeros(|pcm| % 2) + (e[3] + e[4] + e[5])
  {
    hide Preamble, ReservePayload, FmtPayload, Payload, DbmdPayload, Le, Fits, RawChunk.Encode, Zeros;
    var e := EncodeChunks(FileChunks(p, pcm));
    assert HeaderBytes(p) == Preamble(p) + e[0] + e[1] + (DATA + Le(DataSizeField(p), 4));
    assert MetadataBytes(p) == e[3] + e[4] + e[5];
  }

  lemma Regroup<T>(a: seq<T>, b: seq<T>, c: seq<T>, d: seq<T>, pcm: seq<T>, pad: seq<T>, x: seq<T>, y: seq<T>,
      z: seq<T>)
    ensures (a + b + c + d) + pcm + pad + (x + y + z) == a + (b + c + (d + pcm + pad) + x + y + z)
  {
  }

  lemma DataChunkIs(c: RawChunk)
    ensures c.Encode() == (c.id + Le(c.declared, 4)) + c.payload + Zeros(|c.payload| % 2)
  {
    hide Le;
  }

  lemma SixParts<T>(s: seq<seq<T>>)
    requires |s| == 6
    ensures Flatten(s) == s[0] + s[1] + s[2] + s[3] + s[4] + s[5]
  {
    hide Flatten;
    FlattenTo(s, 0);
    FlattenTo(s, 1);
    FlattenTo(s, 2);
    FlattenTo(s, 3);
    FlattenTo(s, 4);
    FlattenTo(s, 5);
    assert s[..6] == s;
  }

  lemma FlattenTo<T>(s: seq<seq<T>>, k: nat)
    requires k < |s|
    ensures Flatten(s[..k + 1]) == if k == 0 then s[0] else Flatten(s[..k]) + s[k]
  {
    assert s[..k + 1] == s[..k] + [s[k]];
    FlattenConcat(s[..k], [s[k]]);
    assert Flatten([s[k]]) == s[k];
  }

  /** The finished file has exactly the planned size. */
  lemma FileHasPlannedSize(p: ExportPlan, pcm: seq<byte>)
    requires LegalPlan(p) && SizesFit(p) && |pcm| == p.dataBytes
    ensures forall i :: 0 <= i < |p.tracks| ==> Fits(p.tracks[i])
    ensures p.totalSize >= 8 && |FileBytes(p, pcm)| == p.totalSize
  {
    hide *;
    PlanAnnouncesItsSize(p);
    LegalTracksFit(p);
    FileLength(p, pcm);
  }

  /** Every legal plan, even one whose size arithmetic wrapped, can be written. */
  lemma LegalTracksFit(p: ExportPlan)
    requires LegalPlan(p)
    ensures forall i :: 0 <= i < |p.tracks| ==> Fits(p.tracks[i])
    ensures p.totalSize >= 8
  {
    ChnaRoundTrip(p.tracks, p.signals, p.lfe);
    hide ChnaOf, Fits, Payload, IsTrackTable;
  }

  lemma FileLength(p: ExportPlan, pcm: seq<byte>)
    requires p.totalSize >= 8 && forall i :: 0 <= i < |p.tracks| ==> Fits(p.tracks[i])
    requires |pcm| == p.dataBytes
    ensures |FileBytes(p, pcm)| == FileSize(p)
  {
    hide HeaderBytes, MetadataBytes, Fits;
    HeaderLength(p);
    MetadataLength(p);
  }

  lemma HeaderLength(p: ExportPlan)
    requires p.totalSize >= 8
    ensures |HeaderBytes(p)| == 12 + PaddedSize(p.container.Reserve()) + 24 + 8
  {
    hide Preamble, ReservePayload, FmtPayload, Le;
  }

  lemma MetadataLength(p: ExportPlan)
    requires forall i :: 0 <= i < |p.tracks| ==> Fits(p.tracks[i])
    ensures |MetadataBytes(p)| == PaddedSize(|p.xml|) + PaddedSize(4 + RECORD_SIZE * |p.tracks|) + PaddedSize(6)
  {
    WrittenPayloadIsEmptyMetadata();
    hide Payload, DbmdPayload, Fits, Le;
  }
}
