/** Streaming in chunks against writing the whole programme at once. */
module AdmStreaming {
  import opened Wrappers
  import opened Bytes
  import opened AdmErrors
  import opened AdmContainer
  import opened AdmPcm
  import opened AdmWriter
  import opened HeadroomCensus
  import AdmPlan
  import Chna

  // ---------------------------------------------------------------- the one-shot oracle

  /** One frame, sample by sample. */
  method WriteFrame(c: Chunk, n: nat, f: nat) returns (r: Result<seq<byte>, AdmError>)
    requires IsRectangle(c, n) && f < n
    ensures r.Ok? <==> FrameInRange(c, n, f, Live(c))
    ensures r.Ok? ==> r.value == FrameBytes(c, f, n)
  {
    hide LiveSample, QuantizeS24, FrameInRange, SampleBytes;
    var bytes: seq<byte> := [];
    NothingBefore(c, n, f);
    if c.lfe.Some? {
      LiveAt(c, n, f, 0);
      SignalUsable(c, n, f, 0);
      bytes := bytes + Zeros(9);
      var sample :- QuantizeS24(|c.rows|, f, c.lfe.value[f]);
      bytes := bytes + sample;
      bytes := bytes + Zeros(6);
    }
    assert bytes == BedBytes(c.lfe, f);
    hide BedBytes;
    for track := 0 to |c.rows|
      invariant FrameInRange(c, n, f, Shift(c) + track)
      invariant bytes == BedBytes(c.lfe, f) + RowBytes(c.rows, f, track)
    {
      LiveAt(c, n, f, Shift(c) + track);
      SignalUsable(c, n, f, Shift(c) + track);
      var sample :- QuantizeS24(track, f, c.rows[track][f]);
      bytes := bytes + sample;
    }
    return Ok(bytes);
  }

  lemma SignalUsable(c: Chunk, n: nat, f: nat, k: nat)
    requires IsRectangle(c, n) && f < n && k < Live(c) && FrameInRange(c, n, f, k)
    ensures var stored := QuantizeS24(LiveTrack(c, k), f, LiveSample(c, n, f, k));
      if stored.Ok? then FrameInRange(c, n, f, k + 1) && stored.value == SampleBytes(LiveSample(c, n, f, k))
      else !FrameInRange(c, n, f, Live(c))
  {
    SignalStep(c, n, 0, f, k, []);
    hide QuantizeS24, LiveSample, SampleBytes, Observed;
  }

  /** Header, all samples, padding and metadata in one pass, for a programme held in memory. */
  method WriteOneShot(p: ExportPlan, c: Chunk) returns (r: Result<seq<byte>, AdmError>)
    requires LegalPlan(p) && HasTopology(p, c)
    ensures forall i :: 0 <= i < |p.tracks| ==> Chna.Fits(p.tracks[i])
    ensures p.totalSize >= 8
    ensures r.Ok? <==> IsRectangle(c, p.duration) && Representable(c, p.duration) && |p.xml| < U32_LIMIT
    ensures r.Ok? ==> r.value == FileBytes(p, Interleave(c, p.duration, p.duration))
  {
    hide LegalPlan, HeaderBytes, MetadataBytes, FrameBytes, Representable, FrameInRange, Chna.Fits, LiveSample;
    LegalTracksFit(p);
    LegalHeaderFits(p);
    hide HeaderFits;
    SignalCount(p);
    var n := p.duration;
    if (exists i | 0 <= i < |c.rows| :: |c.rows[i]| != n) || (c.lfe.Some? && |c.lfe.value| != n) {
      return Err(InvalidScene);
    }
    RepresentableByFrames(c, n);
    var header := WriteHeader(p);
    var stream := header.value;
    EmptyStart(c, n, 0);
    for frame := 0 to n
      invariant stream == HeaderBytes(p) + Interleave(c, n, frame)
      invariant forall e :: 0 <= e < frame ==> FrameInRange(c, n, e, Live(c))
    {
      var bytes :- WriteFrame(c, n, frame);
      InterleaveStep(c, n, frame);
      stream := stream + bytes;
    }
    PcmLength(p, c, n);
    if p.dataBytes % 2 != 0 {
      stream := stream + [0];
    }
    var metadata :- WriteMetadata(p);
    assert stream == HeaderBytes(p) + Interleave(c, n, n) + Zeros(|Interleave(c, n, n)| % 2);
    return Ok(stream + metadata);
  }

  // ---------------------------------------------------------------- any split of the programme

  ghost predicate AllShaped(p: ExportPlan, chunks: seq<Chunk>) {
    forall i :: 0 <= i < |chunks| ==> HasTopology(p, chunks[i]) && IsRectangle(chunks[i], ChunkFrames(chunks[i]))
  }

  function TotalFrames(chunks: seq<Chunk>): nat {
    if chunks == [] then 0 else TotalFrames(chunks[..|chunks| - 1]) + ChunkFrames(chunks[|chunks| - 1])
  }

  /** The programme a list of chunks is a split of. */
  ghost function JoinAll(p: ExportPlan, chunks: seq<Chunk>): (c: Chunk)
    requires AllShaped(p, chunks) && p.signals >= 1
    ensures HasTopology(p, c) && IsRectangle(c, TotalFrames(chunks))
  {
    if chunks == [] then EmptyChunk(p.signals, p.lfe)
    else
      var k := |chunks| - 1;
      assert HasTopology(p, chunks[k]) && IsRectangle(chunks[k], ChunkFrames(chunks[k]));
      Join(JoinAll(p, chunks[..k]), chunks[k])
  }

  lemma JoinRepresentable(a: Chunk, b: Chunk, m: nat, n: nat)
    requires IsRectangle(a, m) && IsRectangle(b, n) && SameShape(a, b)
    ensures IsRectangle(Join(a, b), m + n)
    ensures Representable(Join(a, b), m + n) <==> Representable(a, m) && Representable(b, n)
  {
    hide InRange;
    var c := Join(a, b);
    if Representable(c, m + n) {
      forall r, f | 0 <= r < |a.rows| && 0 <= f < m
        ensures InRange(a.rows[r][f])
      {
        assert InRange(c.rows[r][f]);
      }
      forall r, f | 0 <= r < |a.rows| && 0 <= f < n
        ensures InRange(b.rows[r][f])
      {
        assert InRange(c.rows[r][m + f]);
      }
      if c.lfe.Some? {
        forall f | 0 <= f < m
          ensures InRange(a.lfe.value[f])
        {
          assert InRange(c.lfe.value[f]);
        }
        forall f | 0 <= f < n
          ensures InRange(b.lfe.value[f])
        {
          assert InRange(c.lfe.value[m + f]);
        }
      }
    }
    if Representable(a, m) && Representable(b, n) {
      forall r, f | 0 <= r < |c.rows| && 0 <= f < m + n
        ensures InRange(c.rows[r][f])
      {
        assert c.rows[r][f] == if f < m then a.rows[r][f] else b.rows[r][f - m];
      }
      if c.lfe.Some? {
        forall f | 0 <= f < m + n
          ensures InRange(c.lfe.value[f])
        {
          assert c.lfe.value[f] == if f < m then a.lfe.value[f] else b.lfe.value[f - m];
        }
      }
    }
  }

  lemma JoinAllStep(p: ExportPlan, chunks: seq<Chunk>, k: nat)
    requires AllShaped(p, chunks) && p.signals >= 1 && k < |chunks|
    ensures AllShaped(p, chunks[..k]) && AllShaped(p, chunks[..k + 1])
    ensures HasTopology(p, chunks[k]) && IsRectangle(chunks[k], ChunkFrames(chunks[k]))
    ensures SameShape(JoinAll(p, chunks[..k]), chunks[k])
    ensures JoinAll(p, chunks[..k + 1]) == Join(JoinAll(p, chunks[..k]), chunks[k])
    ensures TotalFrames(chunks[..k + 1]) == TotalFrames(chunks[..k]) + ChunkFrames(chunks[k])
    ensures Representable(JoinAll(p, chunks[..k + 1]), TotalFrames(chunks[..k + 1])) <==>
      Representable(JoinAll(p, chunks[..k]), TotalFrames(chunks[..k])) &&
        Representable(chunks[k], ChunkFrames(chunks[k]))
  {
    hide IsRectangle, Representable, Join, ChunkFrames;
    assert chunks[..k + 1][..k] == chunks[..k];
    JoinRepresentable(JoinAll(p, chunks[..k]), chunks[k], TotalFrames(chunks[..k]), ChunkFrames(chunks[k]));
  }

  /** Nothing that follows makes an unrepresentable or overlong beginning good. */
  lemma {:induction false} PrefixDecides(p: ExportPlan, chunks: seq<Chunk>, k: nat)
    requires AllShaped(p, chunks) && p.signals >= 1 && k <= |chunks|
    ensures AllShaped(p, chunks[..k]) && TotalFrames(chunks[..k]) <= TotalFrames(chunks)
    ensures Representable(JoinAll(p, chunks), TotalFrames(chunks)) ==>
      Representable(JoinAll(p, chunks[..k]), TotalFrames(chunks[..k]))
    decreases |chunks| - k
  {
    hide IsRectangle, Representable, Join, ChunkFrames, HasTopology, JoinAll, TotalFrames;
    if k < |chunks| {
      PrefixDecides(p, chunks, k + 1);
      JoinAllStep(p, chunks, k);
    } else {
      assert chunks[..k] == chunks;
    }
  }

  lemma EmptyIsRepresentable(p: ExportPlan, chunks: seq<Chunk>)
    requires chunks == [] && p.signals >= 1
    ensures AllShaped(p, chunks) && JoinAll(p, chunks) == EmptyChunk(p.signals, p.lfe) && TotalFrames(chunks) == 0
    ensures Representable(JoinAll(p, chunks), 0)
  {
  }

  /** Streams chunks into an empty file. For every split of a programme, empty chunks included, the result
      is byte for byte the one-shot file of the joined programme, and it fails on no other programmes. */
  method ExportInChunks(p: ExportPlan, report: AdmPlan.Report, chunks: seq<Chunk>)
      returns (r: Result<seq<byte>, AdmError>)
    requires LegalPlan(p) && SizesFit(p) && p.signals >= 1
    requires AllShaped(p, chunks) && |chunks| < U64_LIMIT
    ensures forall i :: 0 <= i < |p.tracks| ==> Chna.Fits(p.tracks[i])
    ensures p.totalSize >= 8
    ensures r.Ok? <==>
      && TotalFrames(chunks) == p.duration && Representable(JoinAll(p, chunks), TotalFrames(chunks)) &&
        |p.xml| < U32_LIMIT
      && !(report.policy.Strict? && report.objectBinding.ResolvedWithinCarrier? && !report.dynamicExported)
    ensures r.Ok? ==> r.value == FileBytes(p, Interleave(JoinAll(p, chunks), p.duration, p.duration))
  {
    hide PcmHeadroomCensus.Valid, LegalPlan, SizesFit, FileBytes, HeaderBytes, Representable, IsRectangle, Join,
         Interleave;
    hide JoinAll, TotalFrames, AllShaped, Takes, HasTopology, ChunkFrames, Chna.Fits, RejectedAt, Shaped, FileSize,
         StreamingAdmWriter.CensusReady;
    LegalTracksFit(p);
    PlanAnnouncesItsSize(p);
    var writer := StreamingAdmWriter.New([], p, report);
    EmptyIsRepresentable(p, chunks[..0]);
    for k := 0 to |chunks|
      invariant writer.Valid() && fresh(writer) && fresh(writer.census)
      invariant writer.plan == p && writer.report == report && writer.initial == []
      invariant AllShaped(p, chunks[..k]) && writer.accepted == JoinAll(p, chunks[..k])
      invariant writer.framesWritten == TotalFrames(chunks[..k]) && writer.stats.chunksWritten == k
      invariant Representable(writer.accepted, writer.framesWritten)
    {
      JoinAllStep(p, chunks, k);
      PrefixDecides(p, chunks, k + 1);
      TakenOrOverlong(p, writer.framesWritten, chunks[k]);
      var written := writer.WritePcm(chunks[k]);
      if written.Err? {
        return Err(written.error);
      }
    }
    assert chunks[..|chunks|] == chunks;
    var finished := writer.Finish();
    if finished.Err? {
      return Err(finished.error);
    }
    assert [] + FileBytes(p, Interleave(writer.accepted, p.duration, p.duration)) ==
      FileBytes(p, Interleave(writer.accepted, p.duration, p.duration));
    return Ok(writer.stream);
  }

  // ---------------------------------------------------------------- refused chunks and retries

  /** The chunks a writer takes of those it is offered, each judged by the frames taken before it. */
  ghost function Taken(p: ExportPlan, offers: seq<Chunk>): (taken: seq<Chunk>)
    requires p.signals >= 1
    ensures |taken| <= |offers|
    ensures AllShaped(p, taken) && TotalFrames(taken) <= p.duration &&
      Representable(JoinAll(p, taken), TotalFrames(taken))
  {
    if offers == [] then
      EmptyIsRepresentable(p, []);
      []
    else
      var n := |offers| - 1;
      var before := Taken(p, offers[..n]);
      if Takes(p, TotalFrames(before), offers[n]) then
        TakenAppends(p, before, offers[n]);
        before + [offers[n]]
      else before
  }

  lemma TakenAppends(p: ExportPlan, before: seq<Chunk>, c: Chunk)
    requires p.signals >= 1 && AllShaped(p, before) && Takes(p, TotalFrames(before), c)
    requires Representable(JoinAll(p, before), TotalFrames(before))
    ensures var after := before + [c];
      && AllShaped(p, after) && TotalFrames(after) == TotalFrames(before) + ChunkFrames(c) <= p.duration
      && SameShape(JoinAll(p, before), c) && JoinAll(p, after) == Join(JoinAll(p, before), c)
      && Representable(JoinAll(p, after), TotalFrames(after))
  {
    hide Representable, IsRectangle, Join, JoinAll, TotalFrames, Takes, HasTopology, ChunkFrames;
    TakesIsExact(p, TotalFrames(before), c);
    ShapedWhenTaken(p, TotalFrames(before), c);
    var after := before + [c];
    assert after[..|before|] == before && after[..|before| + 1] == after;
    assert forall i :: 0 <= i < |before| ==> after[i] == before[i];
    JoinAllStep(p, after, |before|);
  }

  lemma ShapedWhenTaken(p: ExportPlan, done: nat, c: Chunk)
    requires Takes(p, done, c)
    ensures HasTopology(p, c) && IsRectangle(c, ChunkFrames(c)) && done + ChunkFrames(c) <= p.duration
    ensures Representable(c, ChunkFrames(c))
  {
    TakesIsExact(p, done, c);
    hide Takes, HasTopology, IsRectangle, ChunkFrames, Representable;
  }

  lemma TakenStep(p: ExportPlan, offers: seq<Chunk>, c: Chunk)
    requires p.signals >= 1
    ensures var before := Taken(p, offers);
      Taken(p, offers + [c]) == if Takes(p, TotalFrames(before), c) then before + [c] else before
  {
    hide Takes, TotalFrames;
    assert (offers + [c])[..|offers|] == offers;
  }

  lemma NothingTaken(p: ExportPlan, offers: seq<Chunk>)
    requires p.signals >= 1 && offers == []
    ensures Taken(p, offers) == []
  {
  }

  /** A refused chunk leaves no trace: whatever follows is taken as if it had never been offered. */
  lemma {:induction false} RefusedLeavesNoTrace(p: ExportPlan, offers: seq<Chunk>, refused: Chunk, later: seq<Chunk>)
    requires p.signals >= 1 && !Takes(p, TotalFrames(Taken(p, offers)), refused)
    ensures Taken(p, offers + [refused] + later) == Taken(p, offers + later)
  {
    hide *;
    if later == [] {
      assert offers + [refused] + later == offers + [refused] && offers + later == offers;
      TakenStep(p, offers, refused);
    } else {
      var n := |later| - 1;
      RefusedLeavesNoTrace(p, offers, refused, later[..n]);
      assert offers + [refused] + later == (offers + [refused] + later[..n]) + [later[n]];
      assert offers + later == (offers + later[..n]) + [later[n]];
      TakenStep(p, offers + [refused] + later[..n], later[n]);
      TakenStep(p, offers + later[..n], later[n]);
    }
  }

  /** Every chunk of a split of a representable programme that fits the plan is taken. */
  lemma {:induction false} SplitIsTaken(p: ExportPlan, chunks: seq<Chunk>)
    requires p.signals >= 1 && AllShaped(p, chunks)
    requires TotalFrames(chunks) <= p.duration && Representable(JoinAll(p, chunks), TotalFrames(chunks))
    ensures Taken(p, chunks) == chunks
  {
    hide *;
    if chunks == [] {
      NothingTaken(p, chunks);
    } else {
      var n := |chunks| - 1;
      assert chunks[..n] + [chunks[n]] == chunks && chunks[..n + 1] == chunks;
      JoinAllStep(p, chunks, n);
      SplitIsTaken(p, chunks[..n]);
      TakenOrOverlong(p, TotalFrames(chunks[..n]), chunks[n]);
      TakenStep(p, chunks[..n], chunks[n]);
    }
  }

  /** Refused chunks between those of a split change nothing: exactly the split is taken. */
  lemma CorrectedRetry(p: ExportPlan, done: seq<Chunk>, refused: Chunk, rest: seq<Chunk>)
    requires p.signals >= 1 && AllShaped(p, done + rest)
    requires TotalFrames(done + rest) <= p.duration && Representable(JoinAll(p, done + rest), TotalFrames(done + rest))
    requires !Takes(p, TotalFrames(done), refused)
    ensures Taken(p, done + [refused] + rest) == done + rest
  {
    hide *;
    PrefixDecides(p, done + rest, |done|);
    assert (done + rest)[..|done|] == done;
    SplitIsTaken(p, done);
    SplitIsTaken(p, done + rest);
    RefusedLeavesNoTrace(p, done, refused, rest);
  }

  /** A caller that goes on after refusals. The file is that of the chunks taken: a programme whose refused
      chunks were corrected and offered again gives the file of the one-shot writer. */
  method ExportWithRetries(p: ExportPlan, report: AdmPlan.Report, offers: seq<Chunk>)
      returns (r: Result<seq<byte>, AdmError>)
    requires LegalPlan(p) && SizesFit(p) && p.signals >= 1 && |offers| < U64_LIMIT
    ensures forall i :: 0 <= i < |p.tracks| ==> Chna.Fits(p.tracks[i])
    ensures p.totalSize >= 8
    ensures r.Ok? <==>
      && TotalFrames(Taken(p, offers)) == p.duration && |p.xml| < U32_LIMIT
      && !(report.policy.Strict? && report.objectBinding.ResolvedWithinCarrier? && !report.dynamicExported)
    ensures r.Ok? ==> r.value == FileBytes(p, Interleave(JoinAll(p, Taken(p, offers)), p.duration, p.duration))
  {
    hide *;
    LegalTracksFit(p);
    PlanAnnouncesItsSize(p);
    var writer := StreamingAdmWriter.New([], p, report);
    EmptyIsRepresentable(p, []);
    NothingTaken(p, offers[..0]);
    for k := 0 to |offers|
      invariant writer.Valid() && fresh(writer) && fresh(writer.census)
      invariant writer.plan == p && writer.report == report && writer.initial == []
      invariant writer.accepted == JoinAll(p, Taken(p, offers[..k]))
      invariant writer.framesWritten == TotalFrames(Taken(p, offers[..k]))
      invariant writer.stats.chunksWritten == |Taken(p, offers[..k])|
    {
      ghost var before := Taken(p, offers[..k]);
      assert offers[..k + 1] == offers[..k] + [offers[k]];
      TakenStep(p, offers[..k], offers[k]);
      if Takes(p, TotalFrames(before), offers[k]) {
        TakenAppends(p, before, offers[k]);
      }
      var written := writer.WritePcm(offers[k]);
    }
    assert offers[..|offers|] == offers;
    StrictMeans(writer);
    var finished := writer.Finish();
    if finished.Err? {
      return Err(finished.error);
    }
    assert [] + FileBytes(p, Interleave(writer.accepted, p.duration, p.duration)) ==
      FileBytes(p, Interleave(writer.accepted, p.duration, p.duration));
    return Ok(writer.stream);
  }

  lemma StrictMeans(writer: StreamingAdmWriter)
    ensures writer.StrictUnmet() <==>
      writer.report.policy.Strict? && writer.report.objectBinding.ResolvedWithinCarrier? &&
        !writer.report.dynamicExported
  {
  }

  /** A chunk of the right shape is refused only for its samples or for the remaining duration. */
  lemma TakenOrOverlong(p: ExportPlan, done: nat, c: Chunk)
    requires HasTopology(p, c) && IsRectangle(c, ChunkFrames(c))
    ensures Takes(p, done, c) <==> Representable(c, ChunkFrames(c)) && done + ChunkFrames(c) <= p.duration
  {
    TakesIsExact(p, done, c);
    hide Representable, IsRectangle, HasTopology;
  }
}
