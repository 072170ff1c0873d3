/** The files the ADM BWF validator accepts, described by their chunk spans. */
module AdmFile {
  import opened Wrappers
  import opened Bytes
  import opened AdmDocument
  import opened AdmDocumentCheck
  import opened AdmContainer
  import Chna
  import Dbmd

  datatype Kind = RiffFile | Rf64File | Bw64File

  /** The XML parser in front of the document checks. */
  type XmlReader = seq<byte> -> Option<Document>

  const MAX_AXML: nat := 64 * 1024 * 1024
  const MAX_CHNA: nat := 4 * 1024 * 1024
  const MAX_DBMD: nat := 16 * 1024 * 1024

  // ---------------------------------------------------------------- header and ds64

  function KindOf(signature: seq<byte>): Option<Kind> {
    if signature == RIFF then Some(RiffFile)
    else if signature == RF64 then Some(Rf64File)
    else if signature == BW64 then Some(Bw64File)
    else None
  }

  predicate HeaderOk(file: seq<byte>) {
    && |file| >= 12
    && KindOf(file[0..4]).Some?
    && file[8..12] == WAVE
    && (if KindOf(file[0..4]) == Some(RiffFile) then WordAt(file, 4, 4) + 8 == |file|
      else WordAt(file, 4, 4) == SENTINEL)
  }

  function FileKind(file: seq<byte>): Kind
    requires HeaderOk(file)
  {
    KindOf(file[0..4]).value
  }

  datatype TableEntry = TableEntry(id: FourCc, size: nat)

  datatype Ds64 = Ds64(riffSize: nat, dataSize: nat, sampleCount: nat, table: seq<TableEntry>)

  function EntryAt(payload: seq<byte>, i: nat): TableEntry
    requires 28 + 12 * (i + 1) <= |payload|
  {
    TableEntry(payload[28 + 12 * i..32 + 12 * i], WordAt(payload, 32 + 12 * i, 8))
  }

  predicate Ds64Ok(payload: seq<byte>) {
    && |payload| >= 28 && |payload| == 28 + 12 * WordAt(payload, 24, 4)
    && forall i :: 0 <= i < WordAt(payload, 24, 4) ==> EntryAt(payload, i).id != DATA && EntryAt(payload, i).id != DS64
  }

  function Ds64Of(payload: seq<byte>): Ds64
    requires Ds64Ok(payload)
  {
    Ds64(WordAt(payload, 0, 8), WordAt(payload, 8, 8), WordAt(payload, 16, 8),
         seq(WordAt(payload, 24, 4), i requires 0 <= i < WordAt(payload, 24, 4) => EntryAt(payload, i)))
  }

  // ---------------------------------------------------------------- spans

  /** One chunk of a file: where it starts, what its size field says, its resolved payload size, and
      the ds64 table entry that resolved it. */
  datatype Span = Span(id: FourCc, start: nat, declared: nat, size: nat, entry: Option<nat>) {
    function End(): nat {
      start + PaddedSize(size)
    }
  }

  function Body(file: seq<byte>, s: Span): seq<byte>
    requires s.End() <= |file|
  {
    file[s.start + 8..s.start + 8 + s.size]
  }

  function EndOf(spans: seq<Span>): nat {
    if spans == [] then 12 else spans[|spans| - 1].End()
  }

  /** The latest span with an identifier. */
  function SpanWith(spans: seq<Span>, id: FourCc): Option<Span> {
    if spans == [] then None
    else if spans[|spans| - 1].id == id then Some(spans[|spans| - 1])
    else SpanWith(spans[..|spans| - 1], id)
  }

  /** The size directory in force after some spans: RF64 and BW64 files carry it in their first chunk. */
  function Directory(file: seq<byte>, kind: Kind, spans: seq<Span>): Option<Ds64> {
    if kind != RiffFile && spans != [] && spans[0].id == DS64 && spans[0].End() <= |file| && Ds64Ok(Body(file,
      spans[0]))
    then Some(Ds64Of(Body(file, spans[0])))
    else None
  }

  /** A plain size is taken as declared; a sentinel is resolved by the directory. */
  predicate SizeOk(kind: Kind, directory: Option<Ds64>, s: Span) {
    if s.declared != SENTINEL then s.size == s.declared && s.entry == None
    else
      && kind != RiffFile && directory.Some?
      && (if s.id == DATA then s.size == directory.value.dataSize && s.entry == None
          else s.entry.Some? && s.entry.value < |directory.value.table|
               && directory.value.table[s.entry.value] == TableEntry(s.id, s.size))
  }

  predicate IsExclusive(id: FourCc) {
    id == FMT || id == DATA || id == AXML || id == CHNA || id == DBMD
  }

  predicate WithinLimit(id: FourCc, size: nat) {
    && (id == FMT ==> size <= 64)
    && (id == AXML ==> size <= MAX_AXML)
    && (id == CHNA ==> size <= MAX_CHNA)
    && (id == DBMD ==> size <= MAX_DBMD)
  }

  predicate DirectoryChunkOk(file: seq<byte>, kind: Kind, s: Span)
    requires s.End() <= |file|
  {
    && kind != RiffFile && s.start == 12
    && 28 <= s.size <= 64
    && Ds64Ok(Body(file, s))
    && Ds64Of(Body(file, s)).riffSize + 8 == |file|
  }

  /** `s` is what the file holds behind the spans `before`. */
  predicate Follows(file: seq<byte>, kind: Kind, before: seq<Span>, s: Span) {
    && s.start == EndOf(before) && s.End() <= |file|
    && s.id == file[s.start..s.start + 4] && s.declared == WordAt(file, s.start + 4, 4)
    && SizeOk(kind, Directory(file, kind, before), s)
    && (s.id == DS64 ==> before == [] && DirectoryChunkOk(file, kind, s))
    && (s.id == JUNK && kind == RiffFile && before == [] ==> s.size <= 64)
    && (IsExclusive(s.id) ==> SpanWith(before, s.id) == None)
    && WithinLimit(s.id, s.size)
  }

  /** The spans tile the file from byte 12 on, each legal behind its predecessors. */
  predicate Chain(file: seq<byte>, kind: Kind, spans: seq<Span>) {
    spans == [] ||
    (Chain(file, kind, spans[..|spans| - 1]) && Follows(file, kind, spans[..|spans| - 1], spans[|spans| - 1]))
  }

  /** Sentinel chunks and directory entries correspond one to one: no entry serves twice, chunks of one
      identifier use its entries in table order, and no entry is left over. */
  ghost predicate Corresponds(directory: Option<Ds64>, spans: seq<Span>) {
    && (forall i, j :: 0 <= i < j < |spans| && spans[i].entry.Some? && spans[j].entry.Some? ==>
          && spans[i].entry != spans[j].entry
          && (spans[i].id == spans[j].id ==> spans[i].entry.value < spans[j].entry.value))
    && (directory.Some? ==> forall e :: 0 <= e < |directory.value.table| ==> Taken(spans, e))
  }

  ghost predicate Taken(spans: seq<Span>, e: nat) {
    exists i :: 0 <= i < |spans| && spans[i].entry == Some(e)
  }

  // ---------------------------------------------------------------- whole files

  /** Rate and channel count the `fmt ` payload announces, when it is the supported PCM format. */
  datatype PcmFormat = PcmFormat(channels: nat, rate: nat)

  predicate FmtOk(fmt: seq<byte>) {
    && |fmt| == 16
    && WordAt(fmt, 0, 2) == 1
    && 1 <= WordAt(fmt, 2, 2) <= 128
    && (WordAt(fmt, 4, 4) == 48_000 || WordAt(fmt, 4, 4) == 96_000)
    && WordAt(fmt, 8, 4) == WordAt(fmt, 4, 4) * (WordAt(fmt, 2, 2) * 3)
    && WordAt(fmt, 12, 2) == WordAt(fmt, 2, 2) * 3
    && WordAt(fmt, 14, 2) == 24
  }

  function FormatOf(fmt: seq<byte>): (f: PcmFormat)
    requires FmtOk(fmt)
    ensures f.rate > 0 && f.channels > 0
  {
    PcmFormat(WordAt(fmt, 2, 2), WordAt(fmt, 4, 4))
  }

  /** Bytes of one interleaved sample frame. */
  function BlockAlign(fmt: seq<byte>): (b: nat)
    requires FmtOk(fmt)
    ensures b > 0
  {
    FormatOf(fmt).channels * 3
  }

  function Frames(bytes: nat, align: nat): nat
    requires align > 0
  {
    bytes / align
  }

  /** The five mandatory chunks are present. */
  predicate Complete(spans: seq<Span>) {
    && SpanWith(spans, FMT).Some? && SpanWith(spans, DATA).Some? && SpanWith(spans, AXML).Some?
    && SpanWith(spans, CHNA).Some? && SpanWith(spans, DBMD).Some?
  }

  function ChunkBody(file: seq<byte>, spans: seq<Span>, id: FourCc): seq<byte> {
    var s := SpanWith(spans, id);
    if s.Some? && s.value.End() <= |file| then Body(file, s.value) else []
  }

  predicate FirstChunkOk(kind: Kind, spans: seq<Span>) {
    spans != [] && spans[0].id == (if kind == RiffFile then JUNK else DS64)
  }

  /** The data chunk agrees with the format and with the directory. */
  predicate DataOk(file: seq<byte>, kind: Kind, spans: seq<Span>) {
    var fmt, data := ChunkBody(file, spans, FMT), SpanWith(spans, DATA);
    && FmtOk(fmt) && data.Some?
    && data.value.size % BlockAlign(fmt) == 0
    && (Directory(file, kind, spans).Some? ==>
          && data.value.size == Directory(file, kind, spans).value.dataSize
          && Frames(data.value.size, BlockAlign(fmt)) == Directory(file, kind, spans).value.sampleCount)
  }

  function SampleCount(file: seq<byte>, spans: seq<Span>): nat
    requires FmtOk(ChunkBody(file, spans, FMT)) && SpanWith(spans, DATA).Some?
  {
    Frames(SpanWith(spans, DATA).value.size, BlockAlign(ChunkBody(file, spans, FMT)))
  }

  /** The metadata chunks are legal and describe this PCM. */
  ghost predicate MetadataOk(file: seq<byte>, spans: seq<Span>, parse: XmlReader)
    requires FmtOk(ChunkBody(file, spans, FMT)) && SpanWith(spans, DATA).Some?
  {
    var format, chna := FormatOf(ChunkBody(file, spans, FMT)), ChunkBody(file, spans, CHNA);
    var document := parse(ChunkBody(file, spans, AXML));
    && Dbmd.Accepted(ChunkBody(file, spans, DBMD))
    && document.Some?
    && exists records :: Chna.ChnaOf(chna, format.channels, records)
         && DocumentAccepted(document.value, format.rate, SampleCount(file, spans), records)
  }

  /** `spans` is the chunk structure of a valid ADM BWF file. */
  ghost predicate LegalFile(file: seq<byte>, spans: seq<Span>, parse: XmlReader) {
    && HeaderOk(file)
    && Structure(file, FileKind(file), spans)
    && MetadataOk(file, spans, parse)
  }

  ghost predicate Structure(file: seq<byte>, kind: Kind, spans: seq<Span>) {
    && Chain(file, kind, spans) && EndOf(spans) == |file|
    && FirstChunkOk(kind, spans)
    && Corresponds(Directory(file, kind, spans), spans)
    && Complete(spans)
    && DataOk(file, kind, spans)
  }

  ghost predicate Accepted(file: seq<byte>, parse: XmlReader) {
    exists spans :: LegalFile(file, spans, parse)
  }

  // ---------------------------------------------------------------- consequences of a chain

  lemma {:induction false} ChainPrefix(file: seq<byte>, kind: Kind, spans: seq<Span>, k: nat)
    requires Chain(file, kind, spans) && k <= |spans|
    ensures Chain(file, kind, spans[..k])
    ensures k < |spans| ==> Follows(file, kind, spans[..k], spans[k])
  {
    hide Follows;
    var n := |spans| - 1;
    if k == |spans| {
      assert spans[..k] == spans;
    } else if k < n {
      ChainPrefix(file, kind, spans[..n], k);
      assert spans[..n][..k] == spans[..k];
    }
  }

  /** Soundness: in every accepted file the padded chunks tile it from byte 12 to its end without gap
      or overlap. */
  lemma ChunksTile(file: seq<byte>, kind: Kind, spans: seq<Span>)
    requires Chain(file, kind, spans) && EndOf(spans) == |file|
    ensures forall i :: 0 <= i < |spans| ==>
      && spans[i].start == (if i == 0 then 12 else spans[i - 1].End())
      && spans[i].start < spans[i].End() <= |file|
    ensures spans != [] ==> spans[|spans| - 1].End() == |file|
  {
    forall i | 0 <= i < |spans|
      ensures spans[i].start == (if i == 0 then 12 else spans[i - 1].End())
      ensures spans[i].End() <= |file|
    {
      ChainPrefix(file, kind, spans, i);
      assert i > 0 ==> spans[..i][i - 1] == spans[i - 1];
    }
  }

  lemma {:induction false} SpanWithMember(spans: seq<Span>, id: FourCc)
    ensures SpanWith(spans, id).Some? <==> exists i :: 0 <= i < |spans| && spans[i].id == id
    ensures SpanWith(spans, id).Some? ==> exists i :: 0 <= i < |spans| && spans[i] == SpanWith(spans, id).value
  {
    if spans != [] {
      var n := |spans| - 1;
      SpanWithMember(spans[..n], id);
      assert forall i :: 0 <= i < n ==> spans[..n][i] == spans[i];
      if SpanWith(spans[..n], id).Some? {
        var i :| 0 <= i < n && spans[..n][i] == SpanWith(spans[..n], id).value;
      }
    }
  }

  /** Soundness: each of the five mandatory chunks occurs exactly once, and the directory is the first
      chunk of RF64 and BW64 files and occurs nowhere else. */
  lemma ChunksAreUnique(file: seq<byte>, kind: Kind, spans: seq<Span>)
    requires Chain(file, kind, spans)
    ensures forall i, j :: 0 <= i < j < |spans| && IsExclusive(spans[i].id) ==> spans[i].id != spans[j].id
    ensures forall i :: 0 <= i < |spans| && spans[i].id == DS64 ==> i == 0 && kind != RiffFile
  {
    forall i, j | 0 <= i < j < |spans| && IsExclusive(spans[i].id)
      ensures spans[i].id != spans[j].id
    {
      ChainPrefix(file, kind, spans, j);
      SpanWithMember(spans[..j], spans[j].id);
      assert spans[..j][i] == spans[i];
    }
    forall i | 0 <= i < |spans| && spans[i].id == DS64
      ensures i == 0 && kind != RiffFile
    {
      ChainPrefix(file, kind, spans, i);
    }
  }

  /** Soundness: the sentinel chunks other than `data` correspond one to one with the directory's
      entries, each agreeing in identifier and size; RIFF files have no sentinel at all. */
  lemma SentinelsMatchTheDirectory(file: seq<byte>, kind: Kind, spans: seq<Span>)
    requires Structure(file, kind, spans)
    ensures forall i :: 0 <= i < |spans| && spans[i].declared == SENTINEL ==>
      kind != RiffFile && Directory(file, kind, spans).Some?
    ensures forall i :: 0 <= i < |spans| && spans[i].declared == SENTINEL && spans[i].id != DATA ==>
      spans[i].entry.Some?
    ensures forall i :: 0 <= i < |spans| && spans[i].entry.Some? ==>
      && Directory(file, kind, spans).Some?
      && spans[i].entry.value < |Directory(file, kind, spans).value.table|
      && Directory(file, kind, spans).value.table[spans[i].entry.value] == TableEntry(spans[i].id, spans[i].size)
    ensures Directory(file, kind, spans).Some? ==>
      forall e :: 0 <= e < |Directory(file, kind, spans).value.table| ==> Taken(spans, e)
  {
    hide Body, Ds64Ok, Ds64Of, DataOk, Complete;
    forall i | 0 <= i < |spans| && (spans[i].declared == SENTINEL || spans[i].entry.Some?)
      ensures SizeOk(kind, Directory(file, kind, spans), spans[i])
    {
      ChainPrefix(file, kind, spans, i);
      DirectoryOfPrefix(file, kind, spans, i);
    }
  }

  lemma DirectoryOfPrefix(file: seq<byte>, kind: Kind, spans: seq<Span>, k: nat)
    requires k <= |spans|
    ensures k > 0 ==> Directory(file, kind, spans[..k]) == Directory(file, kind, spans)
    ensures k == 0 ==> Directory(file, kind, spans[..k]) == None
  {
    hide Ds64Ok, Ds64Of, Body;
  }
}
