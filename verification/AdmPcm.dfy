/** 24-bit quantization and interleaving of PCM chunks. */
module AdmPcm {
  import opened Wrappers
  import opened Bytes
  import opened AdmErrors
  import opened AdmTracks

  /** A decoder sample: a real number, or an infinity or NaN. */
  datatype Sample = Finite(value: real) | NonFinite

  const FULL_SCALE: int := 8_388_608

  // ---------------------------------------------------------------- quantization

  /** `f64::round`: to the nearest integer, halves away from zero. */
  function Round(x: real): int {
    if x >= 0.0 then (x + 0.5).Floor else -((0.5 - x).Floor)
  }

  function Clamp(n: int): int {
    if n < -FULL_SCALE then -FULL_SCALE else if n > FULL_SCALE - 1 then FULL_SCALE - 1 else n
  }

  function S24(value: real): int {
    Clamp(Round(value * FULL_SCALE as real))
  }

  /** The low three bytes of the 32-bit two's complement form. */
  function ThreeBytes(n: int): (bs: seq<byte>)
    ensures |bs| == 3
  {
    Le(n % U32_LIMIT, 4)[..3]
  }

  function SignExtend(bs: seq<byte>): int
    requires |bs| == 3
  {
    var v := FromLe(bs);
    if v < FULL_SCALE then v else v - 2 * FULL_SCALE
  }

  predicate InRange(s: Sample) {
    s.Finite? && -1.0 <= s.value <= 1.0
  }

  function QuantizeS24(track: nat, sample: nat, s: Sample): Result<seq<byte>, AdmError> {
    if s.NonFinite? then Err(NonFiniteSample(track, sample))
    else if !(-1.0 <= s.value <= 1.0) then Err(SampleOutOfRange(track, sample, s.value))
    else Ok(ThreeBytes(S24(s.value)))
  }

  lemma RoundBounds(x: real)
    ensures -0.5 <= Round(x) as real - x <= 0.5
  {
  }

  lemma RoundMonotone(x: real, y: real)
    requires x <= y
    ensures Round(x) <= Round(y)
  {
    if x < 0.0 <= y {
    } else if x >= 0.0 {
      FloorMonotone(x + 0.5, y + 0.5);
    } else {
      FloorMonotone(0.5 - y, 0.5 - x);
    }
  }

  lemma FloorMonotone(x: real, y: real)
    requires x <= y
    ensures x.Floor <= y.Floor
  {
  }

  lemma RoundInteger(n: int)
    ensures Round(n as real) == n
  {
  }

  /** Louder samples never quantize lower. */
  lemma QuantizeMonotone(a: real, b: real)
    requires a <= b
    ensures S24(a) <= S24(b)
  {
    ScaleMonotone(a, b, FULL_SCALE as real);
    RoundMonotone(a * FULL_SCALE as real, b * FULL_SCALE as real);
  }

  lemma ScaleMonotone(a: real, b: real, k: real)
    requires a <= b && k >= 0.0
    ensures a * k <= b * k
  {
    assert (b - a) * k >= 0.0;
  }

  /** The quantization error in steps: at most half, except that the clamp at +1 costs up to one. */
  lemma QuantizeError(v: real)
    requires -1.0 <= v <= 1.0
    ensures var error := S24(v) as real - v * FULL_SCALE as real;
      && -1.0 <= error <= 0.5
      && (-0.5 <= error <==> v * FULL_SCALE as real <= FULL_SCALE as real - 0.5)
  {
    var x := v * FULL_SCALE as real;
    assert -8_388_608.0 <= x <= 8_388_608.0;
    RoundBounds(x);
  }

  /** Rounding treats both signs alike, and a half goes away from zero. */
  lemma RoundIsOdd(x: real)
    ensures Round(-x) == -Round(x)
  {
  }

  lemma RoundHalf(n: nat)
    ensures Round(n as real + 0.5) == n + 1 && Round(-(n as real + 0.5)) == -(n + 1)
  {
    RoundIsOdd(n as real + 0.5);
  }

  /** Where neither sign is clamped, a sample and its negative quantize to opposite steps. */
  lemma QuantizeIsOdd(v: real)
    requires -(FULL_SCALE as real - 0.5) < v * FULL_SCALE as real < FULL_SCALE as real - 0.5
    ensures S24(-v) == -S24(v)
  {
    var x := v * FULL_SCALE as real;
    assert -v * FULL_SCALE as real == -x;
    RoundIsOdd(x);
    RoundBounds(x);
  }

  /** A sample exactly between two steps takes the louder one, on either side of zero. */
  lemma QuantizeHalf(n: nat)
    requires n + 1 < FULL_SCALE
    ensures S24((n as real + 0.5) / FULL_SCALE as real) == n + 1
    ensures S24(-(n as real + 0.5) / FULL_SCALE as real) == -(n + 1)
  {
    var h := n as real + 0.5;
    assert h / FULL_SCALE as real * FULL_SCALE as real == h;
    assert -h / FULL_SCALE as real * FULL_SCALE as real == -h;
    RoundHalf(n);
  }

  /** Every multiple of one step in the 24-bit range is kept exactly. */
  lemma QuantizeFixesSteps(n: int)
    requires -FULL_SCALE <= n < FULL_SCALE
    ensures S24(n as real / FULL_SCALE as real) == n
  {
    assert n as real / FULL_SCALE as real * FULL_SCALE as real == n as real;
    RoundInteger(n);
  }

  /** The three stored bytes sign-extend back to the integer. */
  lemma ThreeBytesRoundTrip(n: int)
    requires -FULL_SCALE <= n < FULL_SCALE
    ensures SignExtend(ThreeBytes(n)) == n
  {
    hide Le, FromLe;
    var word := n % U32_LIMIT;
    Pow256Words();
    LeRoundTrip(word, 4);
    FourBytes(Le(word, 4));
    FromLeBound(ThreeBytes(n));
  }

  lemma FourBytes(bs: seq<byte>)
    requires |bs| == 4
    ensures FromLe(bs) == FromLe(bs[..3]) + 0x100_0000 * (bs[3] as int)
  {
    var low := bs[..3];
    assert bs[1..][1..] == bs[2..] && bs[2..][1..] == bs[3..] && bs[3..][1..] == [];
    assert low[1..][1..] == low[2..] && low[2..][1..] == [];
    assert FromLe(bs[3..]) == bs[3] && FromLe(bs[2..]) == bs[2] as int + 256 * (bs[3] as int);
    assert FromLe(low[2..]) == bs[2] && FromLe(low[1..]) == bs[1] as int + 256 * (bs[2] as int);
  }

  /** Quantization succeeds exactly on finite samples in [-1, 1], and what it stores is readable. */
  lemma QuantizeContract(track: nat, sample: nat, s: Sample)
    ensures QuantizeS24(track, sample, s).Ok? <==> InRange(s)
    ensures InRange(s) ==> SignExtend(QuantizeS24(track, sample, s).value) == S24(s.value)
  {
    if InRange(s) {
      ThreeBytesRoundTrip(S24(s.value));
    }
  }

  // ---------------------------------------------------------------- chunks

  /** A chunk of decoder output: one row per reconstruction signal, and the LFE signal if there is one. */
  datatype Chunk = Chunk(rows: seq<seq<Sample>>, lfe: Option<seq<Sample>>)

  /** All signals of the chunk have `n` samples. */
  ghost predicate IsRectangle(c: Chunk, n: nat) {
    && c.rows != []
    && (forall r :: 0 <= r < |c.rows| ==> |c.rows[r]| == n)
    && (c.lfe.Some? ==> |c.lfe.value| == n)
  }

  /** All samples can be quantized. */
  ghost predicate Representable(c: Chunk, n: nat)
    requires IsRectangle(c, n)
  {
    && (forall r, f :: 0 <= r < |c.rows| && 0 <= f < n ==> InRange(c.rows[r][f]))
    && (c.lfe.Some? ==> forall f :: 0 <= f < n ==> InRange(c.lfe.value[f]))
  }

  function SampleBytes(s: Sample): (bs: seq<byte>)
    ensures |bs| == 3
  {
    if s.Finite? then ThreeBytes(S24(s.value)) else Zeros(3)
  }

  /** The first `k` rows of frame `f`. */
  function RowBytes(rows: seq<seq<Sample>>, f: nat, k: nat): (bs: seq<byte>)
    requires k <= |rows| && forall r :: 0 <= r < |rows| ==> f < |rows[r]|
    ensures |bs| == 3 * k
  {
    if k == 0 then [] else RowBytes(rows, f, k - 1) + SampleBytes(rows[k - 1][f])
  }

  /** The bed part of frame `f`: silence around the LFE sample. */
  function BedBytes(lfe: Option<seq<Sample>>, f: nat): (bs: seq<byte>)
    requires lfe.Some? ==> f < |lfe.value|
    ensures |bs| == 3 * BedSize(lfe.Some?)
  {
    if lfe.Some? then Zeros(9) + SampleBytes(lfe.value[f]) + Zeros(6) else []
  }

  function FrameBytes(c: Chunk, f: nat, n: nat): (bs: seq<byte>)
    requires IsRectangle(c, n) && f < n
    ensures |bs| == 3 * Channels(c)
  {
    BedBytes(c.lfe, f) + RowBytes(c.rows, f, |c.rows|)
  }

  function Channels(c: Chunk): nat {
    BedSize(c.lfe.Some?) + |c.rows|
  }

  /** The interleaved bytes of the first `k` frames. */
  function Interleave(c: Chunk, n: nat, k: nat): (bs: seq<byte>)
    requires IsRectangle(c, n) && k <= n
    ensures |bs| == k * (3 * Channels(c))
  {
    if k == 0 then [] else
      GrowBy(k - 1, 3 * Channels(c));
      Interleave(c, n, k - 1) + FrameBytes(c, k - 1, n)
  }

  lemma GrowBy(k: nat, size: nat)
    ensures (k + 1) * size == k * size + size
  {
  }

  // ---------------------------------------------------------------- joining chunks

  function Join(a: Chunk, b: Chunk): Chunk
    requires SameShape(a, b)
  {
    Chunk(seq(|a.rows|, r requires 0 <= r < |a.rows| => a.rows[r] + b.rows[r]),
          if a.lfe.Some? then Some(a.lfe.value + b.lfe.value) else None)
  }

  predicate SameShape(a: Chunk, b: Chunk) {
    |a.rows| == |b.rows| && a.lfe.Some? == b.lfe.Some?
  }

  lemma JoinIsRectangle(a: Chunk, b: Chunk, m: nat, n: nat)
    requires IsRectangle(a, m) && IsRectangle(b, n) && SameShape(a, b)
    ensures IsRectangle(Join(a, b), m + n) && Channels(Join(a, b)) == Channels(a) == Channels(b)
  {
  }

  lemma JoinedFrame(a: Chunk, b: Chunk, m: nat, n: nat, f: nat)
    requires IsRectangle(a, m) && IsRectangle(b, n) && SameShape(a, b) && f < n
    ensures IsRectangle(Join(a, b), m + n)
    ensures FrameBytes(Join(a, b), m + f, m + n) == FrameBytes(b, f, n)
  {
    hide RowBytes, SampleBytes;
    var whole := Join(a, b);
    SameRowBytes(whole.rows, b.rows, m + f, f, |b.rows|);
  }

  lemma InterleaveStep(c: Chunk, n: nat, k: nat)
    requires IsRectangle(c, n) && k < n
    ensures Interleave(c, n, k + 1) == Interleave(c, n, k) + FrameBytes(c, k, n)
  {
    hide FrameBytes;
  }

  /** Interleaving chunk by chunk gives the bytes of the whole. */
  lemma {:induction false} InterleaveJoin(a: Chunk, b: Chunk, m: nat, n: nat, k: nat)
    requires IsRectangle(a, m) && IsRectangle(b, n) && SameShape(a, b) && k <= n
    ensures IsRectangle(Join(a, b), m + n)
    ensures Interleave(Join(a, b), m + n, m + k) == Interleave(a, m, m) + Interleave(b, n, k)
    decreases k
  {
    hide *;
    JoinIsRectangle(a, b, m, n);
    if k == 0 {
      JoinStart(a, b, m, n);
    } else {
      InterleaveJoin(a, b, m, n, k - 1);
      JoinedFrame(a, b, m, n, k - 1);
      InterleaveStep(Join(a, b), m + n, m + k - 1);
      InterleaveStep(b, n, k - 1);
      assert (m + k - 1) + 1 == m + k;
    }
  }

  lemma JoinStart(a: Chunk, b: Chunk, m: nat, n: nat)
    requires IsRectangle(a, m) && IsRectangle(b, n) && SameShape(a, b)
    ensures IsRectangle(Join(a, b), m + n)
    ensures Interleave(Join(a, b), m + n, m) == Interleave(a, m, m) + Interleave(b, n, 0)
  {
    SharedPrefix(a, Join(a, b), m, m + n, m);
    hide FrameBytes;
  }

  lemma {:induction false} SameRowBytes(s: seq<seq<Sample>>, t: seq<seq<Sample>>, f: nat, g: nat, k: nat)
    requires k <= |s| == |t|
    requires forall r :: 0 <= r < |s| ==> f < |s[r]| && g < |t[r]| && s[r][f] == t[r][g]
    ensures RowBytes(s, f, k) == RowBytes(t, g, k)
  {
    if k > 0 {
      SameRowBytes(s, t, f, g, k - 1);
    }
  }

  lemma {:induction false} SharedPrefix(a: Chunk, b: Chunk, m: nat, n: nat, k: nat)
    requires IsRectangle(a, m) && IsRectangle(b, n) && k <= m <= n
    requires IsPrefix(a, b)
    ensures Interleave(a, m, k) == Interleave(b, n, k)
  {
    hide FrameBytes, IsPrefix;
    if k > 0 {
      SharedPrefix(a, b, m, n, k - 1);
      SharedFrame(a, b, m, n, k - 1);
    }
  }

  /** `b` begins with the samples of `a`. */
  ghost predicate IsPrefix(a: Chunk, b: Chunk) {
    && SameShape(a, b)
    && (forall r :: 0 <= r < |a.rows| ==> a.rows[r] <= b.rows[r])
    && (a.lfe.Some? ==> a.lfe.value <= b.lfe.value)
  }

  lemma SharedFrame(a: Chunk, b: Chunk, m: nat, n: nat, f: nat)
    requires IsRectangle(a, m) && IsRectangle(b, n) && IsPrefix(a, b) && f < m <= n
    ensures FrameBytes(a, f, m) == FrameBytes(b, f, n)
  {
    hide RowBytes, SampleBytes;
    SameRowBytes(a.rows, b.rows, f, f, |a.rows|);
  }

  // ---------------------------------------------------------------- reading signals back

  /** The stored integer of PCM track `i` in frame `f`. */
  function StoredAt(pcm: seq<byte>, channels: nat, i: nat, f: nat): int
    requires i < channels && (f + 1) * (3 * channels) <= |pcm|
  {
    FrameRoom(f, channels, i);
    SignExtend(pcm[f * (3 * channels) + 3 * i..f * (3 * channels) + 3 * i + 3])
  }

  lemma FrameRoom(f: nat, channels: nat, i: nat)
    requires i < channels
    ensures f * (3 * channels) + 3 * i + 3 <= (f + 1) * (3 * channels)
  {
    GrowBy(f, 3 * channels);
  }

  /** What a track's descriptor says its PCM holds: a signal, the LFE, or bed silence. */
  function SignalOf(c: Chunk, n: nat, kind: TrackKind, f: nat): int
    requires IsRectangle(c, n) && f < n
    requires kind.Reconstruction? ==> kind.index < |c.rows|
  {
    match kind
    case Reconstruction(j) => if c.rows[j][f].Finite? then S24(c.rows[j][f].value) else 0
    case Bed(channel) =>
      if channel.Lfe? && c.lfe.Some? && c.lfe.value[f].Finite? then S24(c.lfe.value[f].value) else 0
  }

  lemma SampleBytesRead(s: Sample)
    ensures SignExtend(SampleBytes(s)) == if s.Finite? then S24(s.value) else 0
  {
    if s.Finite? {
      ThreeBytesRoundTrip(S24(s.value));
    } else {
      SilenceReads(SampleBytes(s));
    }
  }

  lemma SilenceReads(bs: seq<byte>)
    requires |bs| == 3 && bs[0] == 0 && bs[1] == 0 && bs[2] == 0
    ensures SignExtend(bs) == 0
  {
    assert bs[1..][1..] == bs[2..] && bs[2..][1..] == [];
    assert FromLe(bs[2..]) == 0 && FromLe(bs[1..]) == 0;
  }

  lemma {:induction false} RowBytesAt(rows: seq<seq<Sample>>, f: nat, k: nat, j: nat)
    requires j < k <= |rows| && forall r :: 0 <= r < |rows| ==> f < |rows[r]|
    ensures RowBytes(rows, f, k)[3 * j..3 * j + 3] == SampleBytes(rows[j][f])
  {
    var before := RowBytes(rows, f, k - 1);
    if j < k - 1 {
      RowBytesAt(rows, f, k - 1, j);
      assert RowBytes(rows, f, k)[3 * j..3 * j + 3] == before[3 * j..3 * j + 3];
    }
  }

  /** Within a frame, each track holds its own signal. */
  lemma FrameHolds(c: Chunk, n: nat, f: nat, i: nat)
    requires IsRectangle(c, n) && f < n && i < Channels(c)
    ensures SignExtend(FrameBytes(c, f, n)[3 * i..3 * i + 3]) == SignalOf(c, n, KindAt(i, c.lfe.Some?), f)
  {
    hide SignExtend, ThreeBytes, SampleBytes, RowBytes, BedBytes;
    var bed, rows := BedBytes(c.lfe, f), RowBytes(c.rows, f, |c.rows|);
    var size := BedSize(c.lfe.Some?);
    if i < size {
      InFront(bed, rows, 3 * i, 3 * i + 3);
      BedHolds(c.lfe, f, i);
    } else {
      Behind(bed, rows, 3 * i, 3 * i + 3);
      RowBytesAt(c.rows, f, |c.rows|, i - size);
      SampleBytesRead(c.rows[i - size][f]);
    }
  }

  lemma InFront<T>(s: seq<T>, t: seq<T>, from: nat, to: nat)
    requires from <= to <= |s|
    ensures (s + t)[from..to] == s[from..to]
  {
  }

  lemma Behind<T>(s: seq<T>, t: seq<T>, from: nat, to: nat)
    requires |s| <= from <= to <= |s| + |t|
    ensures (s + t)[from..to] == t[from - |s|..to - |s|]
  {
  }

  lemma BedHolds(lfe: Option<seq<Sample>>, f: nat, i: nat)
    requires lfe.Some? && f < |lfe.value| && i < |BED_CHANNELS|
    ensures SignExtend(BedBytes(lfe, f)[3 * i..3 * i + 3]) ==
      if BED_CHANNELS[i].Lfe? && lfe.value[f].Finite? then S24(lfe.value[f].value) else 0
  {
    hide SignExtend, ThreeBytes;
    var slot := BedBytes(lfe, f)[3 * i..3 * i + 3];
    if i == 3 {
      assert slot == SampleBytes(lfe.value[f]);
      SampleBytesRead(lfe.value[f]);
    } else {
      SilenceReads(slot);
    }
  }

  lemma {:induction false} FrameAt(c: Chunk, n: nat, k: nat, f: nat)
    requires IsRectangle(c, n) && f < k <= n
    ensures (f + 1) * (3 * Channels(c)) <= |Interleave(c, n, k)|
    ensures Interleave(c, n, k)[f * (3 * Channels(c))..(f + 1) * (3 * Channels(c))] == FrameBytes(c, f, n)
  {
    hide *;
    var size := 3 * Channels(c);
    GrowBy(f, size);
    InterleaveStep(c, n, k - 1);
    var before, last := Interleave(c, n, k - 1), FrameBytes(c, k - 1, n);
    if f < k - 1 {
      FrameAt(c, n, k - 1, f);
      InFront(before, last, f * size, (f + 1) * size);
    } else {
      Behind(before, last, f * size, (f + 1) * size);
      assert last[0..size] == last;
    }
  }

  /** De-interleaving by track descriptor yields each signal's quantized sequence: row `j` behind the
      bed, the LFE in bed slot 3, silence in the other five. */
  lemma DeinterleaveRecovers(c: Chunk, n: nat, f: nat, i: nat)
    requires IsRectangle(c, n) && f < n && i < Channels(c)
    ensures (f + 1) * (3 * Channels(c)) <= |Interleave(c, n, n)|
    ensures StoredAt(Interleave(c, n, n), Channels(c), i, f) == SignalOf(c, n, KindAt(i, c.lfe.Some?), f)
  {
    hide SignExtend, FrameBytes, Interleave, SignalOf;
    FrameAt(c, n, n, f);
    FrameHolds(c, n, f, i);
    var size := 3 * Channels(c);
    GrowBy(f, size);
    SliceOfSlice(Interleave(c, n, n), f * size, (f + 1) * size, 3 * i, 3 * i + 3);
  }
}
