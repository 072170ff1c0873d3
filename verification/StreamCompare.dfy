/** Chunked comparison of two PCM streams, fault location and the retained evidence window. */
module StreamCompare {
  import opened Wrappers
  import opened Bytes
  import opened Arithmetic

  function Min(a: nat, b: nat): (m: nat)
    ensures m <= a && m <= b && (m == a || m == b)
  {
    if a < b then a else b
  }

  // ---------------------------------------------------------------- comparison

  datatype Verdict =
    | Pass
    | WrongSize  // a file's size differs from the manifest
    | Differs(offset: nat)
    | Truncated(offset: nat)  // one stream ended before the other
    | WrongLength  // equal streams of another length than expected

  /** What `read` returns at a position of a regular file. */
  function Read(file: seq<byte>, position: nat, count: nat): (block: seq<byte>)
    requires position <= |file|
    ensures |block| == Min(count, |file| - position)
  {
    file[position..position + Min(count, |file| - position)]
  }

  /** `k` is the least offset at which the streams differ. */
  ghost predicate FirstDifference(a: seq<byte>, b: seq<byte>, k: nat) {
    k < |a| && k < |b| && a[k] != b[k] && a[..k] == b[..k]
  }

  /** The first index at which two blocks differ. */
  method FirstIndex(left: seq<byte>, right: seq<byte>) returns (i: nat)
    requires exists k :: 0 <= k < |left| && k < |right| && left[k] != right[k]
    ensures i < |left| && i < |right| && left[i] != right[i]
    ensures forall j :: 0 <= j < i ==> left[j] == right[j]
  {
    i := 0;
    while left[i] == right[i]
      invariant i < |left| && i < |right|
      invariant forall j :: 0 <= j < i ==> left[j] == right[j]
      invariant exists k :: i <= k < |left| && k < |right| && left[k] != right[k]
      decreases |left| - i
    {
      i := i + 1;
    }
  }

  /** `_compare_stream_bytes`. Whatever the chunk size, the comparison passes exactly when both sizes are as
      expected and the bytes are equal, and a difference is reported at its least offset. */
  method CompareStreamBytes(baseline: seq<byte>, candidate: seq<byte>, baselineSize: nat, candidateSize: nat,
      expected: nat, chunk: nat)
      returns (r: Verdict)
    requires chunk > 0
    ensures r.Pass? <==> baselineSize == candidateSize == expected && baseline == candidate && |baseline| == expected
    ensures r.WrongSize? <==> !(baselineSize == candidateSize == expected)
    ensures r.Differs? ==> FirstDifference(baseline, candidate, r.offset)
    ensures !r.WrongSize? && (exists k :: FirstDifference(baseline, candidate, k)) ==> r.Differs?
    ensures r.Truncated? ==>
      && |baseline| != |candidate| && r.offset == Min(|baseline|, |candidate|)
      && baseline[..r.offset] == candidate[..r.offset]
    ensures r.WrongLength? ==> baseline == candidate && |baseline| != expected
  {
    if baselineSize != expected || candidateSize != expected {
      return WrongSize;
    }
    var offset := 0;
    while true
      invariant offset <= |baseline| && offset <= |candidate|
      invariant baseline[..offset] == candidate[..offset]
      decreases |baseline| - offset
    {
      var left, right := Read(baseline, offset, chunk), Read(candidate, offset, chunk);
      var common := Min(|left|, |right|);
      if left[..common] != right[..common] {
        assert exists k :: 0 <= k < common && left[k] != right[k];
        var local := FirstIndex(left, right);
        LocalDifference(baseline, candidate, offset, chunk, local);
        return Differs(offset + local);
      }
      EqualSoFar(baseline, candidate, offset, chunk);
      if |left| != |right| {
        return Truncated(offset + common);
      }
      if left == [] {
        break;
      }
      offset := offset + |left|;
    }
    assert baseline == baseline[..offset] && candidate == candidate[..offset];
    return if offset != expected then WrongLength else Pass;
  }

  lemma LocalDifference(a: seq<byte>, b: seq<byte>, offset: nat, chunk: nat, local: nat)
    requires offset <= |a| && offset <= |b| && a[..offset] == b[..offset]
    requires local < |Read(a, offset, chunk)| && local < |Read(b, offset, chunk)|
    requires Read(a, offset, chunk)[local] != Read(b, offset, chunk)[local]
    requires forall j :: 0 <= j < local ==> Read(a, offset, chunk)[j] == Read(b, offset, chunk)[j]
    ensures FirstDifference(a, b, offset + local)
  {
    forall j | 0 <= j < offset + local
      ensures a[j] == b[j]
    {
      if j < offset {
        assert a[j] == a[..offset][j] == b[..offset][j] == b[j];
      } else {
        assert a[j] == Read(a, offset, chunk)[j - offset] && b[j] == Read(b, offset, chunk)[j - offset];
      }
    }
  }

  lemma EqualSoFar(a: seq<byte>, b: seq<byte>, offset: nat, chunk: nat)
    requires offset <= |a| && offset <= |b| && a[..offset] == b[..offset]
    requires var left, right := Read(a, offset, chunk), Read(b, offset, chunk);
      left[..Min(|left|, |right|)] == right[..Min(|left|, |right|)]
    ensures var common := Min(|Read(a, offset, chunk)|, |Read(b, offset, chunk)|);
      a[..offset + common] == b[..offset + common]
  {
    var left, right := Read(a, offset, chunk), Read(b, offset, chunk);
    var common := Min(|left|, |right|);
    PrefixGrows(a, offset, |left|, common);
    PrefixGrows(b, offset, |right|, common);
  }

  lemma PrefixGrows<T>(s: seq<T>, at: nat, size: nat, k: nat)
    requires at + size <= |s| && k <= size
    ensures s[..at + k] == s[..at] + s[at..at + size][..k]
  {
    assert s[at..at + size][..k] == s[at..at + k];
  }

  // ---------------------------------------------------------------- fault location

  /** One frame line of a manifest: its number, shape and recorded position in the 32-bit stream. */
  datatype Frame = Frame(id: int, channels: nat, samples: nat, offset: int)

  function FrameBytes(f: Frame, width: nat): nat {
    f.samples * f.channels * width
  }

  /** Bytes of the first `k` frames. */
  function RunningOffset(frames: seq<Frame>, width: nat, k: nat): nat
    requires k <= |frames|
  {
    if k == 0 then 0 else RunningOffset(frames, width, k - 1) + FrameBytes(frames[k - 1], width)
  }

  /** Where frame `k` is taken to begin: recorded for 32-bit samples, a running sum for 64-bit ones. */
  function FrameStart(frames: seq<Frame>, width: nat, k: nat): int
    requires k < |frames|
  {
    if width == 4 then frames[k].offset else RunningOffset(frames, width, k)
  }

  ghost predicate FrameHolds(frames: seq<Frame>, width: nat, k: nat, byteOffset: nat)
    requires k < |frames|
  {
    FrameStart(frames, width, k) <= byteOffset < FrameStart(frames, width, k) + FrameBytes(frames[k], width)
  }

  /** The recorded offsets are the running sums of the frames' sizes. */
  ghost predicate Sequential(frames: seq<Frame>) {
    forall k :: 0 <= k < |frames| ==> frames[k].offset == RunningOffset(frames, 4, k)
  }

  datatype Location = Location(frame: nat, sample: nat, channel: nat)

  predicate InFrames(frames: seq<Frame>, at: Location) {
    at.frame < |frames| && at.sample < frames[at.frame].samples && at.channel < frames[at.frame].channels
  }

  /** Where a sample word begins in the stream. */
  function WordOffset(frames: seq<Frame>, width: nat, at: Location): int
    requires InFrames(frames, at)
  {
    FrameStart(frames, width, at.frame) + (at.sample * frames[at.frame].channels + at.channel) * width
  }

  /** The byte belongs to the sample word of that location. */
  ghost predicate WordHolds(frames: seq<Frame>, width: nat, at: Location, byteOffset: nat) {
    InFrames(frames, at) && WordOffset(frames, width, at) <= byteOffset < WordOffset(frames, width, at) + width
  }

  lemma {:induction false} RunningMonotone(frames: seq<Frame>, width: nat, j: nat, k: nat)
    requires j <= k <= |frames|
    ensures RunningOffset(frames, width, j) <= RunningOffset(frames, width, k)
  {
    if j < k {
      RunningMonotone(frames, width, j, k - 1);
    }
  }

  lemma NoChannels(f: Frame, width: nat)
    ensures f.channels == 0 ==> FrameBytes(f, width) == 0
  {
    if f.channels == 0 {
      assert f.samples * f.channels == 0;
    }
  }

  /** A byte of a frame belongs to one sample word of that frame. */
  lemma WordInFrame(f: Frame, width: nat, local: nat)
    requires width > 0 && local < FrameBytes(f, width)
    ensures f.channels > 0
    ensures var scalar := Div(local, width);
      && Div(scalar, f.channels) < f.samples && Mod(scalar, f.channels) < f.channels
      && scalar == Div(scalar, f.channels) * f.channels + Mod(scalar, f.channels)
      && scalar * width <= local < scalar * width + width
  {
    NoChannels(f, width);
    QuotientBelow(local, width, f.samples * f.channels);
    QuotientRemainder(local, width);
    QuotientRemainder(local / width, f.channels);
    QuotientBelow(local / width, f.channels, f.samples);
  }

  /** `_frame_location`, whatever offsets the manifest records: the location is the sample word that holds
      the byte in the first frame that covers it, and none is reported exactly when no frame does. */
  method FrameLocation(frames: seq<Frame>, byteOffset: nat, width: nat)
      returns (r: Option<(int, nat, nat)>, ghost at: Location)
    requires width == 4 || width == 8
    ensures r.None? <==> forall k :: 0 <= k < |frames| ==> !FrameHolds(frames, width, k, byteOffset)
    ensures r.Some? ==>
      && at.frame < |frames| && WordHolds(frames, width, at, byteOffset) &&
        FrameHolds(frames, width, at.frame, byteOffset)
      && (forall k :: 0 <= k < at.frame ==> !FrameHolds(frames, width, k, byteOffset))
      && r.value == (frames[at.frame].id, at.sample, at.channel)
  {
    hide *;
    at := Location(0, 0, 0);
    NothingBefore(frames, width);
    var runningOffset: int := 0;
    for k := 0 to |frames|
      invariant width != 4 ==> runningOffset == RunningOffset(frames, width, k)
      invariant forall j :: 0 <= j < k ==> !FrameHolds(frames, width, j, byteOffset)
    {
      StepTo(frames, width, k, byteOffset);
      var frame := frames[k];
      var start := if width == 4 then frame.offset else runningOffset;
      var end := start + FrameBytes(frame, width);
      if start <= byteOffset < end {
        Located(frames, width, k, byteOffset);
        var scalar := Div(byteOffset - start, width);
        var sample, channel := Div(scalar, frame.channels), Mod(scalar, frame.channels);
        return Some((frame.id, sample, channel)), Location(k, sample, channel);
      }
      runningOffset := end;
    }
    return None, at;
  }

  lemma NothingBefore(frames: seq<Frame>, width: nat)
    ensures RunningOffset(frames, width, 0) == 0
  {
  }

  lemma StepTo(frames: seq<Frame>, width: nat, k: nat, byteOffset: nat)
    requires k < |frames|
    ensures FrameStart(frames, width, k) == if width == 4 then frames[k].offset else RunningOffset(frames, width, k)
    ensures RunningOffset(frames, width, k + 1) == RunningOffset(frames, width, k) + FrameBytes(frames[k], width)
    ensures FrameHolds(frames, width, k, byteOffset) <==>
      FrameStart(frames, width, k) <= byteOffset < FrameStart(frames, width, k) + FrameBytes(frames[k], width)
  {
    hide FrameBytes;
  }

  lemma Located(frames: seq<Frame>, width: nat, k: nat, byteOffset: nat)
    requires k < |frames| && width > 0 && FrameHolds(frames, width, k, byteOffset)
    ensures FrameStart(frames, width, k) <= byteOffset && frames[k].channels > 0
    ensures var scalar := Div(byteOffset - FrameStart(frames, width, k), width);
      WordHolds(frames, width,
        Location(k, Div(scalar, frames[k].channels), Mod(scalar, frames[k].channels)), byteOffset)
  {
    hide Div, Mod, FrameBytes, FrameStart;
    WordInFrame(frames[k], width, byteOffset - FrameStart(frames, width, k));
  }

  lemma SequentialStart(frames: seq<Frame>, width: nat, k: nat)
    requires k < |frames| && (width == 4 ==> Sequential(frames))
    ensures FrameStart(frames, width, k) == RunningOffset(frames, width, k)
    ensures RunningOffset(frames, width, k + 1) == RunningOffset(frames, width, k) + FrameBytes(frames[k], width)
  {
    hide FrameBytes;
  }

  /** Frames whose offsets are running sums cover exactly the bytes of the stream. */
  lemma {:induction false} SequentialFramesCover(frames: seq<Frame>, width: nat, byteOffset: nat, n: nat)
    requires n <= |frames| && (width == 4 ==> Sequential(frames))
    ensures (exists k :: 0 <= k < n && FrameHolds(frames, width, k, byteOffset)) <==>
      byteOffset < RunningOffset(frames, width, n)
  {
    hide *;
    if n == 0 {
      NothingBefore(frames, width);
    } else {
      SequentialFramesCover(frames, width, byteOffset, n - 1);
      StepTo(frames, width, n - 1, byteOffset);
      SequentialStart(frames, width, n - 1);
      if byteOffset < RunningOffset(frames, width, n - 1) {
        var k :| 0 <= k < n - 1 && FrameHolds(frames, width, k, byteOffset);
      }
    }
  }

  /** Every location of sequential frames has its own word, so the location reported is the only one. */
  lemma LocationIsUnique(frames: seq<Frame>, width: nat, a: Location, b: Location, byteOffset: nat)
    requires width > 0 && (width == 4 ==> Sequential(frames))
    requires WordHolds(frames, width, a, byteOffset) && WordHolds(frames, width, b, byteOffset)
    ensures a == b
  {
    hide Sequential, RunningOffset;
    SequentialStart(frames, width, a.frame);
    SequentialStart(frames, width, b.frame);
    WordEndsInFrame(frames, width, a);
    WordEndsInFrame(frames, width, b);
    if a.frame < b.frame {
      RunningMonotone(frames, width, a.frame + 1, b.frame);
    } else if b.frame < a.frame {
      RunningMonotone(frames, width, b.frame + 1, a.frame);
    } else {
      SameFrame(frames, width, a, b, byteOffset);
    }
  }

  lemma SameFrame(frames: seq<Frame>, width: nat, a: Location, b: Location, byteOffset: nat)
    requires a.frame == b.frame && WordHolds(frames, width, a, byteOffset) && WordHolds(frames, width, b, byteOffset)
    ensures a == b
  {
    hide FrameStart;
    var channels := frames[a.frame].channels;
    var x, y := a.sample * channels + a.channel, b.sample * channels + b.channel;
    SameScalar(FrameStart(frames, width, a.frame), x, y, width, byteOffset);
    SameRow(a.sample, a.channel, b.sample, b.channel, channels);
  }

  lemma WordEndsInFrame(frames: seq<Frame>, width: nat, at: Location)
    requires InFrames(frames, at)
    ensures WordOffset(frames, width, at) + width <= FrameStart(frames, width, at.frame) +
      FrameBytes(frames[at.frame], width)
    ensures FrameStart(frames, width, at.frame) <= WordOffset(frames, width, at)
  {
    hide FrameStart;
    var f := frames[at.frame];
    ProductGap(at.sample, f.samples, f.channels);
    ProductGap(at.sample * f.channels + at.channel, f.samples * f.channels, width);
  }

  lemma SameScalar(start: int, x: nat, y: nat, width: nat, byteOffset: nat)
    requires start + x * width <= byteOffset < start + x * width + width
    requires start + y * width <= byteOffset < start + y * width + width
    ensures x == y
  {
    if x < y {
      ProductGap(x, y, width);
    } else if y < x {
      ProductGap(y, x, width);
    }
  }

  lemma SameRow(s: nat, c: nat, t: nat, d: nat, channels: nat)
    requires c < channels && d < channels && s * channels + c == t * channels + d
    ensures s == t && c == d
  {
    if s < t {
      ProductGap(s, t, channels);
    } else if t < s {
      ProductGap(t, s, channels);
    }
  }

  // ---------------------------------------------------------------- evidence window

  datatype Window = Window(offset: nat, count: nat)

  /** `copy_artifact`'s window arithmetic. */
  function EvidenceWindow(size: nat, limit: Option<nat>, focus: nat): Window {
    var count := if limit.None? then size else Min(size, limit.value);
    var centred := if focus > count / 2 then focus - count / 2 else 0;
    Window(Min(centred, size - count), count)
  }

  /** The window is as large as the budget allows, stays inside the file, has the focus in its middle unless an
      end of the file is nearer, and contains the focus byte whenever it has room for one byte. */
  lemma WindowHoldsFocus(size: nat, limit: Option<nat>, focus: nat)
    ensures var w := EvidenceWindow(size, limit, focus);
      && w.offset + w.count <= size
      && w.count == (if limit.Some? && limit.value < size then limit.value else size)
      && (w.offset + w.count / 2 == focus
          || (w.offset == 0 && focus < w.count / 2)
          || (w.offset + w.count == size && w.offset + w.count / 2 < focus))
      && (w.count >= 1 && focus < size ==> w.offset <= focus < w.offset + w.count)
  {
  }

  /** The copy loop: retains exactly the window, or fails if the file shrank below its recorded size. */
  method CopyWindow(source: seq<byte>, size: nat, limit: Option<nat>, focus: nat, chunk: nat)
      returns (retained: Option<seq<byte>>)
    requires chunk > 0
    ensures var w := EvidenceWindow(size, limit, focus);
      && (retained.None? <==> w.count > 0 && |source| < w.offset + w.count)
      && (retained.Some? && w.count > 0 ==>
        |source| >= w.offset + w.count && retained.value == source[w.offset..w.offset + w.count])
      && (retained.Some? && w.count == 0 ==> retained.value == [])
  {
    var w := EvidenceWindow(size, limit, focus);
    if limit == Some(0) {
      return Some([]);
    }
    var written: seq<byte> := [];
    var position, remaining := w.offset, w.count;
    while remaining > 0
      invariant position == w.offset + |written| && |written| + remaining == w.count && remaining >= 0
      invariant |written| > 0 ==> position <= |source| && written == source[w.offset..position]
      decreases remaining
    {
      var block := if position < |source| then Read(source, position, Min(chunk, remaining)) else [];
      if block == [] {
        return None;
      }
      assert source[w.offset..position + |block|] == source[w.offset..position] + block;
      written := written + block;
      remaining := remaining - |block|;
      position := position + |block|;
    }
    return Some(written);
  }
}
