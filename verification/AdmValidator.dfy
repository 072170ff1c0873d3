/** `validate_reader`: header, chunk walk, format, metadata. */
module AdmValidator {
  import opened Wrappers
  import opened Bytes
  import opened AdmErrors
  import opened AdmDocumentCheck
  import opened AdmContainer
  import opened AdmFile
  import opened AdmWalk
  import AdmXmlValidator
  import Chna
  import Dbmd

  /** The validator's report on an accepted file. */
  datatype Summary = Summary(
    kind: Kind, chunks: seq<FourCc>, rate: nat, channels: nat, dataBytes: nat, axmlBytes: nat, dbmdBytes: nat,
    dbmdSegments: seq<byte>, reservedSegments: bool, chnaTracks: nat, chnaUids: nat)

  /** The report states what the chunk structure holds. */
  ghost predicate Describes(file: seq<byte>, spans: seq<Span>, s: Summary)
    requires HeaderOk(file) && FmtOk(ChunkBody(file, spans, FMT)) && SpanWith(spans, DATA).Some?
  {
    && s.kind == FileKind(file) && s.chunks == IdsOfSpans(spans)
    && s.rate == FormatOf(ChunkBody(file, spans, FMT)).rate
    && s.channels == s.chnaTracks == FormatOf(ChunkBody(file, spans, FMT)).channels
    && s.dataBytes == SpanWith(spans, DATA).value.size
    && s.axmlBytes == |ChunkBody(file, spans, AXML)| && s.dbmdBytes == |ChunkBody(file, spans, DBMD)|
    && (forall segments :: Dbmd.DbmdOf(ChunkBody(file, spans, DBMD), segments) ==> s.dbmdSegments == Dbmd.Ids(segments))
    && (s.reservedSegments <==> exists i :: 0 <= i < |s.dbmdSegments| && s.dbmdSegments[i] >= 9)
    && (forall records :: Chna.ChnaOf(ChunkBody(file, spans, CHNA), s.channels, records) ==> s.chnaUids == |records|)
  }

  /** The preamble: signature, form type and, for RIFF, the 32-bit size. */
  method ReadPreamble(file: seq<byte>) returns (r: Result<Kind, AdmError>)
    requires |file| < U64_LIMIT
    ensures r.Ok? <==> HeaderOk(file)
    ensures r.Ok? ==> r.value == FileKind(file)
  {
    if |file| < 12 {
      return Err(InvalidAdmBwf);
    }
    var kind := KindOf(file[0..4]);
    if kind.None? || file[8..12] != WAVE {
      return Err(InvalidAdmBwf);
    }
    var size := WordAt(file, 4, 4);
    if kind.value == RiffFile && size + 8 != |file| {
      return Err(InvalidAdmBwf);
    }
    if kind.value != RiffFile && size != SENTINEL {
      return Err(InvalidAdmBwf);
    }
    return Ok(kind.value);
  }

  /** The `fmt ` payload, in checked 16- and 32-bit arithmetic. */
  method ReadFormat(fmt: seq<byte>) returns (r: Result<PcmFormat, AdmError>)
    ensures r.Ok? <==> FmtOk(fmt)
    ensures r.Ok? ==> r.value == FormatOf(fmt)
  {
    if |fmt| != 16 || WordAt(fmt, 0, 2) != 1 {
      return Err(InvalidAdmBwf);
    }
    var channels, rate := WordAt(fmt, 2, 2), WordAt(fmt, 4, 4);
    var byteRate, align, bits := WordAt(fmt, 8, 4), WordAt(fmt, 12, 2), WordAt(fmt, 14, 2);
    hide WordAt;
    if channels * 3 >= U16_LIMIT {
      return Err(SizeOverflow);
    }
    if rate * (channels * 3) >= U32_LIMIT {
      RateBound(rate, channels);
      return Err(SizeOverflow);
    }
    if !(1 <= channels <= 128) || (rate != 48_000 && rate != 96_000)
       || bits != 24 || align != channels * 3 || byteRate != rate * (channels * 3) {
      return Err(InvalidAdmBwf);
    }
    return Ok(PcmFormat(channels, rate));
  }

  lemma RateBound(rate: nat, channels: nat)
    ensures rate * (channels * 3) >= U32_LIMIT && channels <= 128 ==> rate != 48_000 && rate != 96_000
  {
  }

  /** Agreement of the data chunk with the format and the directory. */
  method CheckData(file: seq<byte>, kind: Kind, ghost spans: seq<Span>, inv: Inventory, format: PcmFormat)
      returns (r: Result<nat, AdmError>)
    requires Gathered(file, kind, spans, inv) && inv.dataBytes.Some?
    requires FmtOk(ChunkBody(file, spans, FMT)) && format == FormatOf(ChunkBody(file, spans, FMT))
    ensures r.Ok? <==> DataOk(file, kind, spans)
    ensures r.Ok? ==> r.value == SampleCount(file, spans)
  {
    hide Directory, SpanWith, ChunkBody, FmtOk;
    if inv.ds64.Some? && inv.dataBytes.value != inv.ds64.value.dataSize {
      return Err(InvalidAdmBwf);
    }
    var align := format.channels * 3;
    if inv.dataBytes.value % align != 0 {
      return Err(InvalidAdmBwf);
    }
    var samples := inv.dataBytes.value / align;
    if inv.ds64.Some? && samples != inv.ds64.value.sampleCount {
      return Err(InvalidAdmBwf);
    }
    return Ok(samples);
  }

  /** Everything behind the chunk walk. */
  method ReadContents(file: seq<byte>, kind: Kind, ghost spans: seq<Span>, inv: Inventory, parse: XmlReader)
      returns (r: Result<Summary, AdmError>)
    requires HeaderOk(file) && kind == FileKind(file)
    requires Walked(file, kind, spans) && Gathered(file, kind, spans, inv)
    ensures r.Ok? <==> LegalFile(file, spans, parse)
    ensures r.Ok? ==> Describes(file, spans, r.value)
  {
    hide HeaderOk, FmtOk, DataOk, Directory, SpanWith, Walked, Dbmd.Accepted, Dbmd.DbmdOf, Chna.ChnaOf;
    hide DocumentAccepted, Chain, Corresponds, FirstChunkOk, FileKind, ChunkBody, IdsOfSpans, FormatOf, SampleCount;
    LegalParts(file, kind, spans, parse);
    if inv.fmt.None? {
      return Err(InvalidAdmBwf);
    }
    var format :- ReadFormat(inv.fmt.value);
    if inv.dataBytes.None? {
      return Err(InvalidAdmBwf);
    }
    var samples :- CheckData(file, kind, spans, inv, format);
    if inv.axml.None? || inv.chna.None? || inv.dbmd.None? {
      return Err(InvalidAdmBwf);
    }
    var segments :- Dbmd.ValidateDbmd(inv.dbmd.value);
    var reserved := exists i :: 0 <= i < |segments| && segments[i] >= 9;
    var records :- Chna.ParseChna(inv.chna.value, format.channels);
    ChnaUnique(inv.chna.value, format.channels, records);
    var document := parse(inv.axml.value);
    if document.None? {
      return Err(InvalidAdmBwf);
    }
    var checked := AdmXmlValidator.ValidateAdmXml(document.value, format.rate, samples, records);
    if checked.Err? {
      return Err(checked.error);
    }
    return Ok(Summary(kind, inv.chunks, format.rate, format.channels, inv.dataBytes.value, |inv.axml.value|,
      |inv.dbmd.value|,
                      segments, reserved, format.channels, |records|));
  }

  lemma LegalParts(file: seq<byte>, kind: Kind, spans: seq<Span>, parse: XmlReader)
    requires HeaderOk(file) && kind == FileKind(file)
    requires Walked(file, kind, spans)
    ensures LegalFile(file, spans, parse) <==>
      && Complete(spans) && DataOk(file, kind, spans)
      && MetadataOk(file, spans, parse)
    ensures DataOk(file, kind, spans) ==> FmtOk(ChunkBody(file, spans, FMT))
  {
    hide HeaderOk, FmtOk, Directory, SpanWith, MetadataOk, Chain, Corresponds, FirstChunkOk, FileKind;
  }

  /** A `chna` payload has at most one reading. */
  lemma ChnaUnique(payload: seq<byte>, channels: nat, records: seq<Chna.ChnaRecord>)
    requires Chna.ChnaOf(payload, channels, records)
    ensures forall other :: Chna.ChnaOf(payload, channels, other) ==> other == records
  {
    forall other | Chna.ChnaOf(payload, channels, other)
      ensures other == records
    {
      hide Chna.RecordOk, Chna.RecordOf, Chna.Referenced;
      assert |other| == |records|;
    }
  }

  /** Accepts exactly the legal ADM BWF files and reports what they hold. */
  method ValidateReader(file: seq<byte>, parse: XmlReader) returns (r: Result<Summary, AdmError>)
    requires |file| < U64_LIMIT
    ensures r.Ok? <==> Accepted(file, parse)
    ensures forall spans :: LegalFile(file, spans, parse) ==> r.Ok? && Describes(file, spans, r.value)
  {
    hide *;
    forall spans | LegalFile(file, spans, parse)
      ensures HeaderOk(file) && Walked(file, FileKind(file), spans) && Accepted(file, parse)
      ensures FmtOk(ChunkBody(file, spans, FMT)) && SpanWith(spans, DATA).Some?
    {
      LegalIsWalked(file, spans, parse);
    }
    AcceptedIsLegal(file, parse);
    var preamble := ReadPreamble(file);
    if preamble.Err? {
      return Err(preamble.error);
    }
    var kind := preamble.value;
    LongEnough(file);
    var inv, spans := ReadChunks(file, kind);
    if inv.Err? {
      return Err(inv.error);
    }
    r := ReadContents(file, kind, spans, inv.value, parse);
  }

  lemma LongEnough(file: seq<byte>)
    requires HeaderOk(file)
    ensures |file| >= 12
  {
  }

  lemma AcceptedIsLegal(file: seq<byte>, parse: XmlReader)
    ensures Accepted(file, parse) <==> exists spans :: LegalFile(file, spans, parse)
  {
  }

  lemma LegalIsWalked(file: seq<byte>, spans: seq<Span>, parse: XmlReader)
    requires LegalFile(file, spans, parse)
    ensures HeaderOk(file) && Walked(file, FileKind(file), spans) && Accepted(file, parse)
    ensures FmtOk(ChunkBody(file, spans, FMT)) && SpanWith(spans, DATA).Some?
  {
    hide HeaderOk, FmtOk, Directory, SpanWith, MetadataOk, Chain, Corresponds, FirstChunkOk, FileKind;
  }
}
