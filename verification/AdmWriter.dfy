/** The streaming writer, and the one-shot writer it must agree with. */
module AdmWriter {
  import opened Wrappers
  import opened Bytes
  import opened AdmErrors
  import opened AdmTracks
  import opened AdmContainer
  import opened AdmPcm
  import opened HeadroomCensus
  import AdmPlan
  import AdmRoundTrip
  import Chna
  import Dbmd

  // ---------------------------------------------------------------- header and metadata

  /** The header's narrow fields can hold the plan's values. */
  predicate HeaderFits(p: ExportPlan) {
    && |p.tracks| * 3 < U16_LIMIT && p.sampleRate * (|p.tracks| * 3) < U32_LIMIT
    && p.totalSize >= 8
    && (p.container.Riff? ==> p.totalSize - 8 < U32_LIMIT && p.dataBytes < U32_LIMIT)
  }

  lemma LegalHeaderFits(p: ExportPlan)
    requires LegalPlan(p)
    ensures HeaderFits(p)
  {
    TrackCount(p);
    LegalTracksFit(p);
    hide IsTrackTable;
    AdmRoundTrip.RateFits(p.sampleRate, |p.tracks|);
  }

  /** `write_adm_bwf_header`. */
  method WriteHeader(p: ExportPlan) returns (r: Result<seq<byte>, AdmError>)
    requires p.container.Rf64? ==> p.totalSize >= 8
    ensures r.Ok? <==> HeaderFits(p)
    ensures r.Ok? ==> r.value == HeaderBytes(p)
    ensures r.Err? ==> r.error == SizeOverflow
  {
    hide Le;
    var channels := |p.tracks|;
    var header: seq<byte> := [];
    if p.container.Riff? {
      if p.totalSize < 8 || p.totalSize - 8 >= U32_LIMIT {
        return Err(SizeOverflow);
      }
      header := RIFF + Le(p.totalSize - 8, 4) + WAVE;
      header := header + (JUNK + Le(64, 4) +
        (Le(p.totalSize - 8, 8) + Le(p.dataBytes, 8) + Le(p.duration, 8) + Le(0, 4) + Zeros(36)));
    } else {
      header := RF64 + Le(SENTINEL, 4) + WAVE;
      header := header + (DS64 + Le(28, 4) +
        (Le(p.totalSize - 8, 8) + Le(p.dataBytes, 8) + Le(p.duration, 8) + Le(0, 4)));
    }
    PreambleAndReserve(p, header);
    if channels * 3 >= U16_LIMIT || p.sampleRate * (channels * 3) >= U32_LIMIT {
      return Err(SizeOverflow);
    }
    header := header + (FMT + Le(16, 4) + FmtPayload(p));
    if p.container.Riff? && p.dataBytes >= U32_LIMIT {
      return Err(SizeOverflow);
    }
    header := header + (DATA + Le(DataSizeField(p), 4));
    HeaderParts(p);
    return Ok(header);
  }

  /** The first two writes of the header. */
  function FrontBytes(p: ExportPlan): seq<byte>
    requires p.totalSize >= 8
  {
    Preamble(p) + RawChunk(if p.container.Riff? then JUNK else DS64, p.container.Reserve(), ReservePayload(p)).Encode()
  }

  lemma PreambleAndReserve(p: ExportPlan, header: seq<byte>)
    requires p.totalSize >= 8
    requires p.container.Riff? ==>
      header == RIFF + Le(p.totalSize - 8, 4) + WAVE +
      (JUNK + Le(64, 4) + (Le(p.totalSize - 8, 8) + Le(p.dataBytes, 8) + Le(p.duration, 8) + Le(0, 4) + Zeros(36)))
    requires p.container.Rf64? ==>
      header == RF64 + Le(SENTINEL, 4) + WAVE +
      (DS64 + Le(28, 4) + (Le(p.totalSize - 8, 8) + Le(p.dataBytes, 8) + Le(p.duration, 8) + Le(0, 4)))
    ensures header == FrontBytes(p)
  {
    hide Le;
    ReserveIs(p);
    if p.container.Riff? {
      EvenChunk(RawChunk(JUNK, 64, ReservePayload(p)));
    } else {
      EvenChunk(RawChunk(DS64, 28, ReservePayload(p)));
    }
    hide RawChunk.Encode, ReservePayload;
  }

  lemma ReserveIs(p: ExportPlan)
    requires p.totalSize >= 8
    ensures p.container.Riff? ==>
      ReservePayload(p) == Le(p.totalSize - 8, 8) + Le(p.dataBytes, 8) + Le(p.duration, 8) + Le(0, 4) + Zeros(36)
    ensures p.container.Rf64? ==>
      ReservePayload(p) == Le(p.totalSize - 8, 8) + Le(p.dataBytes, 8) + Le(p.duration, 8) + Le(0, 4)
  {
    hide Le;
  }

  lemma EvenChunk(c: RawChunk)
    requires |c.payload| % 2 == 0
    ensures c.Encode() == c.id + Le(c.declared, 4) + c.payload
  {
    hide Le;
  }

  lemma HeaderParts(p: ExportPlan)
    requires p.totalSize >= 8
    ensures HeaderBytes(p) == FrontBytes(p) + (FMT + Le(16, 4) + FmtPayload(p)) + (DATA + Le(DataSizeField(p), 4))
  {
    EvenChunk(RawChunk(FMT, 16, FmtPayload(p)));
    hide Le, FmtPayload, RawChunk.Encode, Preamble, ReservePayload;
  }

  /** `write_chunk`. */
  method WriteChunk(id: FourCc, payload: seq<byte>) returns (r: Result<seq<byte>, AdmError>)
    ensures r.Ok? <==> |payload| < U32_LIMIT
    ensures r.Ok? ==> r.value == RawChunk(id, |payload|, payload).Encode()
    ensures r.Err? ==> r.error == SizeOverflow
  {
    if |payload| >= U32_LIMIT {
      return Err(SizeOverflow);
    }
    var bytes := id + Le(|payload|, 4) + payload;
    if |payload| % 2 != 0 {
      bytes := bytes + [0];
    }
    return Ok(bytes);
  }

  /** `write_adm_metadata`. */
  method WriteMetadata(p: ExportPlan) returns (r: Result<seq<byte>, AdmError>)
    requires LegalPlan(p)
    ensures forall i :: 0 <= i < |p.tracks| ==> Chna.Fits(p.tracks[i])
    ensures r.Ok? <==> |p.xml| < U32_LIMIT
    ensures r.Ok? ==> r.value == MetadataBytes(p)
    ensures r.Err? ==> r.error == SizeOverflow
  {
    hide RawChunk.Encode, Chna.Payload, Dbmd.DbmdPayload, Chna.Fits, LegalPlan;
    LegalTracksFit(p);
    TrackCount(p);
    AdmPlan.FitsMeans(p.tracks);
    Dbmd.WrittenPayloadIsEmptyMetadata();
    var axml :- WriteChunk(AXML, p.xml);
    var payload :- Chna.ChnaPayload(p.tracks);
    var chna := WriteChunk(CHNA, payload);  // at most 4964 bytes
    var dbmd := WriteChunk(DBMD, Dbmd.DbmdPayload());
    return Ok(axml + chna.value + dbmd.value);
  }

  // ---------------------------------------------------------------- signals in writing order

  /** Signals that carry samples: the LFE, if there is one, then the rows. */
  function Live(c: Chunk): nat {
    |c.rows| + if c.lfe.Some? then 1 else 0
  }

  function LiveRow(c: Chunk, k: nat): nat {
    if c.lfe.Some? && k > 0 then k - 1 else k
  }

  function LiveSample(c: Chunk, n: nat, f: nat, k: nat): Sample
    requires IsRectangle(c, n) && f < n && k < Live(c)
  {
    if c.lfe.Some? && k == 0 then c.lfe.value[f] else c.rows[LiveRow(c, k)][f]
  }

  function LiveStream(c: Chunk, k: nat): Stream {
    if c.lfe.Some? && k == 0 then BaseLfe else Row(LiveRow(c, k))
  }

  /** The track number an error reports: rows by index, the LFE behind them. */
  function LiveTrack(c: Chunk, k: nat): nat {
    if c.lfe.Some? && k == 0 then |c.rows| else LiveRow(c, k)
  }

  /** The observations the census makes of frames before `f` and of the first `k` signals of frame `f`. */
  function Observed(c: Chunk, n: nat, base: nat, f: nat, k: nat): seq<Observation>
    requires IsRectangle(c, n) && f <= n && (f == n ==> k == 0) && k <= Live(c)
    decreases f, k
  {
    if k > 0 then Observed(c, n, base, f, k - 1) +
      [Observation(LiveStream(c, k - 1), base + f, LiveSample(c, n, f, k - 1))]
    else if f > 0 then Observed(c, n, base, f - 1, Live(c))
    else []
  }

  ghost predicate FrameInRange(c: Chunk, n: nat, f: nat, k: nat)
    requires IsRectangle(c, n) && f < n && k <= Live(c)
  {
    forall j :: 0 <= j < k ==> InRange(LiveSample(c, n, f, j))
  }

  /** Signal `k` of frame `f` holds the first sample that cannot be quantized. */
  ghost predicate FaultAt(c: Chunk, n: nat, f: nat, k: nat)
    requires IsRectangle(c, n)
  {
    && f < n && k < Live(c) && !InRange(LiveSample(c, n, f, k))
    && FrameInRange(c, n, f, k)
    && forall e :: 0 <= e < f ==> FrameInRange(c, n, e, Live(c))
  }

  lemma RepresentableByFrames(c: Chunk, n: nat)
    requires IsRectangle(c, n)
    ensures Representable(c, n) <==> forall f :: 0 <= f < n ==> FrameInRange(c, n, f, Live(c))
  {
    if Representable(c, n) {
      forall f, j | 0 <= f < n && 0 <= j < Live(c)
        ensures InRange(LiveSample(c, n, f, j))
      {
      }
    }
    if forall f :: 0 <= f < n ==> FrameInRange(c, n, f, Live(c)) {
      forall r, f | 0 <= r < |c.rows| && 0 <= f < n
        ensures InRange(c.rows[r][f])
      {
        assert FrameInRange(c, n, f, Live(c));
        var k := if c.lfe.Some? then r + 1 else r;
        assert LiveSample(c, n, f, k) == c.rows[r][f];
      }
      if c.lfe.Some? {
        forall f | 0 <= f < n
          ensures InRange(c.lfe.value[f])
        {
          assert FrameInRange(c, n, f, Live(c));
          assert LiveSample(c, n, f, 0) == c.lfe.value[f];
        }
      }
    }
  }

  /** Writing frame `f` stops at signal `k`: everything before it is in range, `error` names it, and the
      census has seen it. */
  ghost predicate StopsAt(c: Chunk, n: nat, base: nat, f: nat, k: nat, error: AdmError, start: seq<Observation>,
      seen: seq<Observation>)
    requires IsRectangle(c, n)
  {
    && f < n && k < Live(c) && !InRange(LiveSample(c, n, f, k)) && FrameInRange(c, n, f, k)
    && QuantizeS24(LiveTrack(c, k), base + f, LiveSample(c, n, f, k)) == Err(error)
    && seen == start + Observed(c, n, base, f, k + 1)
  }

  lemma NothingBefore(c: Chunk, n: nat, f: nat)
    requires IsRectangle(c, n) && f < n
    ensures FrameInRange(c, n, f, 0) && RowBytes(c.rows, f, 0) == []
  {
  }

  /** Signal `k` of a frame: what is observed, what is stored, and what an unusable sample means. */
  lemma SignalStep(c: Chunk, n: nat, base: nat, f: nat, k: nat, start: seq<Observation>)
    requires IsRectangle(c, n) && f < n && k < Live(c) && FrameInRange(c, n, f, k)
    ensures Observed(c, n, base, f, k + 1) ==
      Observed(c, n, base, f, k) + [Observation(LiveStream(c, k), base + f, LiveSample(c, n, f, k))]
    ensures var stored := QuantizeS24(LiveTrack(c, k), base + f, LiveSample(c, n, f, k));
      if stored.Ok? then FrameInRange(c, n, f, k + 1) && stored.value == SampleBytes(LiveSample(c, n, f, k))
      else StopsAt(c, n, base, f, k, stored.error, start, start + Observed(c, n, base, f, k + 1))
  {
    QuantizeContract(LiveTrack(c, k), base + f, LiveSample(c, n, f, k));
    hide S24, ThreeBytes;
  }

  lemma LiveAt(c: Chunk, n: nat, f: nat, k: nat)
    requires IsRectangle(c, n) && f < n && k < Live(c)
    ensures c.lfe.Some? && k == 0 ==>
      f < |c.lfe.value| && LiveSample(c, n, f, k) == c.lfe.value[f] && LiveStream(c, k) == BaseLfe &&
        LiveTrack(c, k) == |c.rows|
    ensures !(c.lfe.Some? && k == 0) ==>
      var row := LiveRow(c, k);
      && row < |c.rows| && f < |c.rows[row]| && LiveSample(c, n, f, k) == c.rows[row][f]
      && LiveStream(c, k) == Row(row) && LiveTrack(c, k) == row
  {
  }

  lemma FaultIsNotRepresentable(c: Chunk, n: nat, f: nat, k: nat)
    requires IsRectangle(c, n) && FaultAt(c, n, f, k)
    ensures !Representable(c, n)
  {
    RepresentableByFrames(c, n);
    hide Representable, LiveSample;
    assert !FrameInRange(c, n, f, Live(c));
  }

  // ---------------------------------------------------------------- the writer

  datatype Stats = Stats(framesWritten: nat, chunksWritten: nat, maxChunkFrames: nat, maxLiveSamples: nat,
      maxInterleavedBytes: nat)

  function Larger(a: nat, b: nat): (m: nat)
    ensures m >= a && m >= b && (m == a || m == b)
  {
    if a < b then b else a
  }

  function EmptyChunk(signals: nat, lfe: bool): Chunk {
    Chunk(seq(signals, _ => []), if lfe then Some([]) else None)
  }

  /** The chunk has the plan's signals. */
  predicate HasTopology(p: ExportPlan, c: Chunk) {
    |c.rows| == p.signals && c.lfe.Some? == p.lfe
  }

  /** A chunk the writer takes when `done` frames have been written. */
  ghost predicate Takes(p: ExportPlan, done: nat, c: Chunk) {
    && HasTopology(p, c)
    && exists n :: IsRectangle(c, n) && done + n <= p.duration && Representable(c, n)
  }

  function ChunkFrames(c: Chunk): nat {
    if c.rows != [] then |c.rows[0]| else if c.lfe.Some? then |c.lfe.value| else 0
  }

  class StreamingAdmWriter {
    const plan: ExportPlan
    const report: AdmPlan.Report
    const census: PcmHeadroomCensus
    ghost const initial: seq<byte>
    var stream: seq<byte>
    var framesWritten: nat
    var interleaved: seq<byte>
    var stats: Stats
    ghost var accepted: Chunk

    /** The stream holds what was there before, the header, and the interleaved accepted chunks. */
    ghost predicate Valid()
      reads this, census
    {
      && LegalPlan(plan) && plan.totalSize >= 8
      && HasTopology(plan, accepted) && IsRectangle(accepted, framesWritten) && framesWritten <= plan.duration
      && stream == initial + HeaderBytes(plan) + Interleave(accepted, framesWritten, framesWritten)
      && CensusReady()
    }

    ghost predicate CensusReady()
      reads this, census
    {
      census.Valid() && |census.reconstruction| == plan.signals && census.baseLfe.Some? == plan.lfe
    }

    constructor Open(initial: seq<byte>, header: seq<byte>, plan: ExportPlan, report: AdmPlan.Report)
      requires LegalPlan(plan) && plan.totalSize >= 8 && header == HeaderBytes(plan)
      ensures Valid() && fresh(census) && census.history == []
      ensures this.plan == plan && this.report == report && this.initial == initial
      ensures framesWritten == 0 && stats == Stats(0, 0, 0, 0, 0) && accepted == EmptyChunk(plan.signals, plan.lfe)
    {
      hide LegalPlan, HeaderBytes;
      this.plan, this.report, this.initial := plan, report, initial;
      stream := initial + header;
      framesWritten, interleaved, stats := 0, [], Stats(0, 0, 0, 0, 0);
      accepted := EmptyChunk(plan.signals, plan.lfe);
      census := new PcmHeadroomCensus(plan.signals, plan.lfe);
      new;
      SignalCount(plan);
    }

    /** `StreamingAdmWriter::new`. A legal plan always opens. */
    static method New(initial: seq<byte>, plan: ExportPlan, report: AdmPlan.Report) returns (w: StreamingAdmWriter)
      requires LegalPlan(plan)
      ensures fresh(w) && fresh(w.census) && w.Valid()
      ensures w.plan == plan && w.report == report && w.initial == initial
      ensures w.framesWritten == 0 && w.stats == Stats(0, 0, 0, 0, 0) &&
        w.accepted == EmptyChunk(plan.signals, plan.lfe)
    {
      hide LegalPlan, HeaderBytes;
      LegalHeaderFits(plan);
      var header := WriteHeader(plan);
      w := new StreamingAdmWriter.Open(initial, header.value, plan, report);
    }

    /** One row's sample: observed, quantized, stored. */
    method EmitRow(c: Chunk, n: nat, f: nat, track: nat, ghost start: seq<Observation>)
        returns (r: Result<(), AdmError>)
      requires IsRectangle(c, n) && f < n && HasTopology(plan, c) && CensusReady() && track < |c.rows|
      requires FrameInRange(c, n, f, Shift(c) + track)
      requires census.history == start + Observed(c, n, framesWritten, f, Shift(c) + track)
      modifies this`interleaved, census
      ensures CensusReady()
      ensures r.Ok? ==>
        && FrameInRange(c, n, f, Shift(c) + track + 1)
        && interleaved == old(interleaved) + SampleBytes(c.rows[track][f])
        && census.history == start + Observed(c, n, framesWritten, f, Shift(c) + track + 1)
      ensures r.Err? ==> StopsAt(c, n, framesWritten, f, Shift(c) + track, r.error, start, census.history)
    {
      hide PcmHeadroomCensus.Valid, LiveSample, QuantizeS24, FrameInRange, SampleBytes, Observed, StopsAt;
      ghost var k := Shift(c) + track;
      LiveAt(c, n, f, k);
      SignalStep(c, n, framesWritten, f, k, start);
      census.ObserveReconstruction(track, framesWritten + f, c.rows[track][f]);
      assert census.history == start + Observed(c, n, framesWritten, f, k + 1);
      var bytes := QuantizeS24(track, framesWritten + f, c.rows[track][f]);
      if bytes.Err? {
        return Err(bytes.error);
      }
      interleaved := interleaved + bytes.value;
      return Ok(());
    }

    /** The bed of one frame: silence around the LFE sample. */
    method EmitBed(c: Chunk, n: nat, f: nat, ghost start: seq<Observation>) returns (r: Result<(), AdmError>)
      requires IsRectangle(c, n) && f < n && HasTopology(plan, c) && CensusReady()
      requires census.history == start + Observed(c, n, framesWritten, f, 0)
      modifies this`interleaved, census
      ensures CensusReady()
      ensures r.Ok? ==>
        && FrameInRange(c, n, f, Shift(c))
        && interleaved == old(interleaved) + BedBytes(c.lfe, f)
        && census.history == start + Observed(c, n, framesWritten, f, Shift(c))
      ensures r.Err? ==> StopsAt(c, n, framesWritten, f, 0, r.error, start, census.history)
    {
      hide PcmHeadroomCensus.Valid, LiveSample, QuantizeS24, FrameInRange, SampleBytes, Observed, StopsAt;
      NothingBefore(c, n, f);
      if c.lfe.Some? {
        LiveAt(c, n, f, 0);
        SignalStep(c, n, framesWritten, f, 0, start);
        interleaved := interleaved + Zeros(9);
        census.ObserveBaseLfe(framesWritten + f, c.lfe.value[f]);
        assert census.history == start + Observed(c, n, framesWritten, f, 1);
        var bytes := QuantizeS24(|c.rows|, framesWritten + f, c.lfe.value[f]);
        if bytes.Err? {
          return Err(bytes.error);
        }
        interleaved := interleaved + bytes.value;
        interleaved := interleaved + Zeros(6);
      }
      return Ok(());
    }

    /** Quantizes and interleaves one frame, observing every sample on the way. */
    method InterleaveFrame(c: Chunk, n: nat, f: nat, ghost start: seq<Observation>) returns (r: Result<(), AdmError>)
      requires IsRectangle(c, n) && f < n && HasTopology(plan, c) && CensusReady()
      requires census.history == start + Observed(c, n, framesWritten, f, 0)
      modifies this`interleaved, census
      ensures CensusReady()
      ensures r.Ok? ==>
        && FrameInRange(c, n, f, Live(c))
        && interleaved == old(interleaved) + FrameBytes(c, f, n)
        && census.history == start + Observed(c, n, framesWritten, f, Live(c))
      ensures r.Err? ==> exists k :: StopsAt(c, n, framesWritten, f, k, r.error, start, census.history)
    {
      hide PcmHeadroomCensus.Valid, LiveSample, QuantizeS24, FrameInRange, SampleBytes, Observed, StopsAt, BedBytes;
      NothingBefore(c, n, f);
      r := EmitBed(c, n, f, start);
      if r.Err? {
        return;
      }
      for track := 0 to |c.rows|
        invariant CensusReady()
        invariant FrameInRange(c, n, f, Shift(c) + track)
        invariant interleaved == old(interleaved) + BedBytes(c.lfe, f) + RowBytes(c.rows, f, track)
        invariant census.history == start + Observed(c, n, framesWritten, f, Shift(c) + track)
      {
        r := EmitRow(c, n, f, track, start);
        if r.Err? {
          return;
        }
      }
      return Ok(());
    }

    /** Fills the buffer with one chunk. */
    method InterleaveChunk(c: Chunk, n: nat) returns (r: Result<(), AdmError>)
      requires IsRectangle(c, n) && HasTopology(plan, c) && CensusReady()
      modifies this`interleaved, census
      ensures CensusReady()
      ensures r.Ok? <==> Representable(c, n)
      ensures r.Ok? ==>
        && interleaved == Interleave(c, n, n)
        && census.history == old(census.history) + Observed(c, n, framesWritten, n, 0)
      ensures r.Err? ==> RejectedAt(c, n, framesWritten, r.error, old(census.history), census.history)
    {
      hide PcmHeadroomCensus.Valid, FrameBytes, Representable, FrameInRange, LiveSample, StopsAt, FaultAt, IsRectangle;
      interleaved := [];
      ghost var start := census.history;
      EmptyStart(c, n, framesWritten);
      for frame := 0 to n
        invariant CensusReady()
        invariant interleaved == Interleave(c, n, frame)
        invariant census.history == start + Observed(c, n, framesWritten, frame, 0)
        invariant forall e :: 0 <= e < frame ==> FrameInRange(c, n, e, Live(c))
      {
        r := InterleaveFrame(c, n, frame, start);
        if r.Err? {
          ghost var k :| StopsAt(c, n, framesWritten, frame, k, r.error, start, census.history);
          StoppedIsFault(c, n, framesWritten, frame, k, r.error, start, census.history);
          return;
        }
        FrameDone(c, n, framesWritten, frame);
      }
      RepresentableByFrames(c, n);
      return Ok(());
    }

    /** The tests in front of quantization: topology, equal lengths, remaining duration. */
    method CheckChunk(c: Chunk) returns (r: Result<nat, AdmError>)
      requires Valid()
      ensures r.Ok? <==> Shaped(plan, framesWritten, c)
      ensures r.Ok? ==> r.value == ChunkFrames(c)
      ensures r.Err? ==>
        r.error == InvalidScene || (r.error == SizeOverflow && framesWritten + ChunkFrames(c) >= U64_LIMIT)
    {
      hide PcmHeadroomCensus.Valid, LegalPlan, HeaderBytes, Interleave;
      SignalCount(plan);
      DurationBound(plan);
      if |c.rows| != plan.signals || c.lfe.Some? != plan.lfe {
        return Err(InvalidScene);
      }
      var frames := |c.rows[0]|;
      if exists i | 0 <= i < |c.rows| :: |c.rows[i]| != frames {
        return Err(InvalidScene);
      }
      if c.lfe.Some? && |c.lfe.value| != frames {
        return Err(InvalidScene);
      }
      if framesWritten + frames >= U64_LIMIT {
        return Err(SizeOverflow);
      }
      if framesWritten + frames > plan.duration {
        return Err(InvalidScene);
      }
      return Ok(frames);
    }

    /** Appends the buffered chunk and counts it. */
    method Commit(c: Chunk, frames: nat) returns (r: Result<(), AdmError>)
      requires Valid() && Shaped(plan, framesWritten, c) && frames == ChunkFrames(c)
      requires interleaved == Interleave(c, frames, frames)
      modifies this`stream, this`framesWritten, this`stats, this`accepted
      ensures Valid()
      ensures SameShape(old(accepted), c) && accepted == Join(old(accepted), c)
      ensures framesWritten == old(framesWritten) + frames && stream == old(stream) + interleaved
      ensures r.Ok? <==> old(stats.chunksWritten) + 1 < U64_LIMIT
      ensures r.Ok? ==> stats.framesWritten == framesWritten && stats.chunksWritten == old(stats.chunksWritten) + 1
      ensures r.Err? ==> r.error == SizeOverflow
    {
      hide PcmHeadroomCensus.Valid, LegalPlan, HeaderBytes, Interleave, Join, IsRectangle, ChunkFrames, Channels;
      ShapedParts(plan, framesWritten, c);
      Joined(accepted, c, framesWritten, frames);
      stream := stream + interleaved;
      framesWritten := framesWritten + frames;
      accepted := Join(accepted, c);
      assert stream == initial + HeaderBytes(plan) + Interleave(accepted, framesWritten, framesWritten);
      assert Valid();
      stats := stats.(framesWritten := framesWritten);
      if stats.chunksWritten + 1 >= U64_LIMIT {
        return Err(SizeOverflow);
      }
      stats := stats.(
        chunksWritten := stats.chunksWritten + 1,
        maxChunkFrames := Larger(stats.maxChunkFrames, frames),
        maxLiveSamples := Larger(stats.maxLiveSamples, frames * (plan.signals + (if plan.lfe then 1 else 0))),
        maxInterleavedBytes := Larger(stats.maxInterleavedBytes, |interleaved|));
      return Ok(());
    }

    /** `write_pcm`. A chunk that is not taken writes nothing and counts no frame, although the census keeps
        the samples observed before the fault; so a corrected chunk can follow. */
    method WritePcm(c: Chunk) returns (r: Result<(), AdmError>)
      requires Valid()
      modifies this`stream, this`framesWritten, this`interleaved, this`stats, this`accepted, census
      ensures Valid()
      ensures r.Ok? <==> Takes(plan, old(framesWritten), c) && old(stats.chunksWritten) + 1 < U64_LIMIT
      ensures !Takes(plan, old(framesWritten), c) ==>
        && stream == old(stream) && framesWritten == old(framesWritten) && stats == old(stats) &&
          accepted == old(accepted)
      ensures Takes(plan, old(framesWritten), c) ==>
        && SameShape(old(accepted), c) && accepted == Join(old(accepted), c)
        && framesWritten == old(framesWritten) + ChunkFrames(c) && IsRectangle(c, ChunkFrames(c))
        && stream == old(stream) + Interleave(c, ChunkFrames(c), ChunkFrames(c))
        && census.history == old(census.history) + Observed(c, ChunkFrames(c), old(framesWritten), ChunkFrames(c), 0)
      ensures r.Ok? ==> stats.framesWritten == framesWritten && stats.chunksWritten == old(stats.chunksWritten) + 1
      ensures Shaped(plan, old(framesWritten), c) && !Takes(plan, old(framesWritten), c) ==>
        && r.Err? && IsRectangle(c, ChunkFrames(c))
        && RejectedAt(c, ChunkFrames(c), old(framesWritten), r.error, old(census.history), census.history)
      ensures !Shaped(plan, old(framesWritten), c) ==> census.history == old(census.history)
    {
      hide PcmHeadroomCensus.Valid, LegalPlan, HeaderBytes, Interleave, Observed, Representable, RejectedAt;
      hide Shaped, Takes, IsRectangle, Join, HasTopology, ChunkFrames;
      TakesIsExact(plan, framesWritten, c);
      var checked := CheckChunk(c);
      if checked.Err? {
        return Err(checked.error);
      }
      var frames := checked.value;
      ShapedParts(plan, framesWritten, c);
      r := InterleaveChunk(c, frames);
      if r.Err? {
        return;
      }
      r := Commit(c, frames);
    }

    /** The strict policy demands the dynamic metadata of a resolved binding. */
    predicate StrictUnmet() {
      report.policy.Strict? && report.objectBinding.ResolvedWithinCarrier? && !report.dynamicExported
    }

    /** `finish`: pads the samples, appends the metadata and compares the position with the planned size. */
    method Finish() returns (r: Result<Stats, AdmError>)
      requires Valid()
      modifies this`stream
      ensures forall i :: 0 <= i < |plan.tracks| ==> Chna.Fits(plan.tracks[i])
      ensures r.Ok? <==>
        && !StrictUnmet() && framesWritten == plan.duration && |plan.xml| < U32_LIMIT
        && |initial| + FileSize(plan) == plan.totalSize
      ensures r.Ok? ==>
        && stream == initial + FileBytes(plan, Interleave(accepted, framesWritten, framesWritten))
        && r.value == stats
      ensures r.Ok? && initial == [] ==>
        AdmRoundTrip.Completes(plan, Interleave(accepted, framesWritten, framesWritten))
    {
      hide PcmHeadroomCensus.Valid, LegalPlan, HeaderBytes, MetadataBytes, Interleave, FileSize, Chna.Fits;
      LegalTracksFit(plan);
      if StrictUnmet() {
        return Err(UnsupportedDynamicMetadata);
      }
      if framesWritten != plan.duration {
        return Err(InvalidScene);
      }
      ghost var pcm := Interleave(accepted, framesWritten, framesWritten);
      PcmLength(plan, accepted, framesWritten);
      if plan.dataBytes % 2 != 0 {
        stream := stream + [0];
      }
      assert stream == initial + HeaderBytes(plan) + pcm + Zeros(|pcm| % 2);
      var metadata :- WriteMetadata(plan);
      stream := stream + metadata;
      assert stream == initial + FileBytes(plan, pcm);
      FileLength(plan, pcm);
      if |stream| != plan.totalSize {
        return Err(InvalidScene);
      }
      PlanAnnouncesItsSize(plan);
      return Ok(stats);
    }
  }

  function Shift(c: Chunk): nat {
    if c.lfe.Some? then 1 else 0
  }

  lemma EmptyStart(c: Chunk, n: nat, base: nat)
    requires IsRectangle(c, n)
    ensures Interleave(c, n, 0) == [] && Observed(c, n, base, 0, 0) == []
  {
  }

  lemma FrameDone(c: Chunk, n: nat, base: nat, f: nat)
    requires IsRectangle(c, n) && f < n
    ensures Interleave(c, n, f + 1) == Interleave(c, n, f) + FrameBytes(c, f, n)
    ensures Observed(c, n, base, f + 1, 0) == Observed(c, n, base, f, Live(c))
  {
    InterleaveStep(c, n, f);
  }

  /** The chunk was rejected at its first unusable sample. */
  ghost predicate RejectedAt(c: Chunk, n: nat, base: nat, error: AdmError, start: seq<Observation>,
      seen: seq<Observation>)
    requires IsRectangle(c, n)
  {
    exists f, k :: FaultAt(c, n, f, k) && StopsAt(c, n, base, f, k, error, start, seen)
  }

  lemma StoppedIsFault(c: Chunk, n: nat, base: nat, f: nat, k: nat, error: AdmError, start: seq<Observation>,
      seen: seq<Observation>)
    requires IsRectangle(c, n) && StopsAt(c, n, base, f, k, error, start, seen)
    requires forall e :: 0 <= e < f ==> FrameInRange(c, n, e, Live(c))
    ensures RejectedAt(c, n, base, error, start, seen) && !Representable(c, n)
  {
    hide Representable, FrameInRange, LiveSample, QuantizeS24;
    assert FaultAt(c, n, f, k);
    FaultIsNotRepresentable(c, n, f, k);
  }

  /** Topology, equal lengths and remaining duration are right. */
  ghost predicate Shaped(p: ExportPlan, done: nat, c: Chunk) {
    HasTopology(p, c) && IsRectangle(c, ChunkFrames(c)) && done + ChunkFrames(c) <= p.duration
  }

  lemma ShapedParts(p: ExportPlan, done: nat, c: Chunk)
    requires Shaped(p, done, c)
    ensures HasTopology(p, c) && IsRectangle(c, ChunkFrames(c)) && done + ChunkFrames(c) <= p.duration
  {
    hide HasTopology, IsRectangle, ChunkFrames;
  }

  /** The source's tests decide exactly whether a chunk is taken. */
  lemma TakesIsExact(p: ExportPlan, done: nat, c: Chunk)
    ensures Takes(p, done, c) <==> Shaped(p, done, c) && Representable(c, ChunkFrames(c))
  {
    hide Representable;
    if Takes(p, done, c) {
      var n :| IsRectangle(c, n) && done + n <= p.duration && Representable(c, n);
      assert |c.rows[0]| == n;
    }
  }

  lemma DurationBound(p: ExportPlan)
    requires LegalPlan(p)
    ensures p.duration < U64_LIMIT
  {
    hide IsTrackTable, AdmBwfLayout;
  }

  lemma Joined(a: Chunk, c: Chunk, m: nat, n: nat)
    requires IsRectangle(a, m) && IsRectangle(c, n) && SameShape(a, c)
    ensures IsRectangle(Join(a, c), m + n) && SameShape(Join(a, c), a)
    ensures Interleave(Join(a, c), m + n, m + n) == Interleave(a, m, m) + Interleave(c, n, n)
  {
    hide Interleave;
    InterleaveJoin(a, c, m, n, n);
  }

  lemma PcmLength(p: ExportPlan, c: Chunk, n: nat)
    requires LegalPlan(p) && HasTopology(p, c) && IsRectangle(c, n) && n == p.duration
    ensures |Interleave(c, n, n)| == p.dataBytes
  {
    SignalCount(p);
    hide IsTrackTable, AdmBwfLayout, Interleave;
    Reassociate(n, Channels(c));
  }

  lemma Reassociate(n: nat, channels: nat)
    ensures n * (3 * channels) == n * channels * 3
  {
  }

  lemma SignalCount(p: ExportPlan)
    requires LegalPlan(p)
    ensures 1 <= p.signals <= MAX_SIGNALS && |p.tracks| == p.signals + BedSize(p.lfe)
  {
  }
}
