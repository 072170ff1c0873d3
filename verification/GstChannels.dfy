/** The channel permutation between the renderer's labels and GStreamer's position order. */
module GstChannels {
  import opened Wrappers
  import Arithmetic
  import GstTime

  /** A GStreamer channel position, by its rank in the valid order. */
  type Position = nat

  /** The label table of the element. */
  type Positions = string -> Option<Position>

  ghost predicate Known(labels: seq<string>, table: Positions) {
    forall i :: 0 <= i < |labels| ==> table(labels[i]).Some?
  }

  function SemanticPositions(labels: seq<string>, table: Positions): (ps: seq<Position>)
    requires Known(labels, table)
    ensures |ps| == |labels|
  {
    seq(|labels|, i requires 0 <= i < |labels| && table(labels[i]).Some? => table(labels[i]).value)
  }

  predicate Distinct<T(==)>(s: seq<T>) {
    forall i, j :: 0 <= i < j < |s| ==> s[i] != s[j]
  }

  predicate Ascending(s: seq<nat>) {
    forall i, j :: 0 <= i < j < |s| ==> s[i] < s[j]
  }

  /** `channel_positions`. */
  method ChannelPositions(labels: seq<string>, table: Positions) returns (r: Option<seq<Position>>)
    ensures r.Some? <==> Known(labels, table)
    ensures r.Some? ==> r.value == SemanticPositions(labels, table)
  {
    var positions: seq<Position> := [];
    for i := 0 to |labels|
      invariant |positions| == i
      invariant forall k :: 0 <= k < i ==> table(labels[k]) == Some(positions[k])
    {
      var position := table(labels[i]);
      if position.None? {
        return None;
      }
      positions := positions + [position.value];
    }
    assert positions == SemanticPositions(labels, table);
    return Some(positions);
  }

  // ---------------------------------------------------------------- valid order

  /** Places a new position in ascending order. */
  function Insert(s: seq<Position>, x: Position): (t: seq<Position>)
    ensures |t| == |s| + 1
    ensures forall y :: y in t <==> y == x || y in s
  {
    if s == [] then [x]
    else if x < s[0] then [x] + s
    else
      assert s == [s[0]] + s[1..];
      [s[0]] + Insert(s[1..], x)
  }

  lemma {:induction false} InsertAscends(s: seq<Position>, x: Position)
    requires Ascending(s) && x !in s
    ensures Ascending(Insert(s, x))
  {
    if s != [] && x > s[0] {
      InsertAscends(s[1..], x);
      var rest := Insert(s[1..], x);
      forall i | 0 <= i < |rest|
        ensures s[0] < rest[i]
      {
        assert rest[i] in rest;
      }
    }
  }

  /** `positions_to_valid_order`: sorts, refusing a repeated position. */
  method ValidOrder(positions: seq<Position>) returns (r: Option<seq<Position>>)
    ensures r.Some? <==> Distinct(positions)
    ensures r.Some? ==> |r.value| == |positions| && Ascending(r.value) && forall p :: p in r.value <==> p in positions
  {
    var sorted: seq<Position> := [];
    for i := 0 to |positions|
      invariant |sorted| == i && Ascending(sorted) && Distinct(positions[..i])
      invariant forall p :: p in sorted <==> p in positions[..i]
    {
      var p := positions[i];
      if p in sorted {
        assert exists k :: 0 <= k < i && positions[..i][k] == p;
        return None;
      }
      InsertAscends(sorted, p);
      assert positions[..i + 1] == positions[..i] + [p];
      sorted := Insert(sorted, p);
    }
    assert positions[..|positions|] == positions;
    return Some(sorted);
  }

  /** `reorder` names, for each place in the valid order, the renderer channel that goes there. */
  ghost predicate IsReorder(semantic: seq<Position>, sorted: seq<Position>, reorder: seq<nat>) {
    && |sorted| == |reorder| == |semantic| && Ascending(sorted)
    && forall k :: 0 <= k < |reorder| ==> reorder[k] < |semantic| && semantic[reorder[k]] == sorted[k]
  }

  /** `gst_channel_order`. */
  method ChannelOrder(labels: seq<string>, table: Positions) returns (r: Option<(seq<Position>, seq<nat>)>)
    ensures r.Some? <==> Known(labels, table) && Distinct(SemanticPositions(labels, table))
    ensures r.Some? ==> IsReorder(SemanticPositions(labels, table), r.value.0, r.value.1)
  {
    var semantic := ChannelPositions(labels, table);
    if semantic.None? {
      return None;
    }
    var sorted := ValidOrder(semantic.value);
    if sorted.None? {
      return None;
    }
    var reorder: seq<nat> := [];
    for k := 0 to |sorted.value|
      invariant |reorder| == k
      invariant forall i :: 0 <= i < k ==>
        reorder[i] < |semantic.value| && semantic.value[reorder[i]] == sorted.value[i]
    {
      assert sorted.value[k] in semantic.value;
      var channel := FindChannel(semantic.value, sorted.value[k]);
      reorder := reorder + [channel];
    }
    return Some((sorted.value, reorder));
  }

  method FindChannel(semantic: seq<Position>, position: Position) returns (channel: nat)
    requires position in semantic
    ensures channel < |semantic| && semantic[channel] == position
  {
    channel := 0;
    while semantic[channel] != position
      invariant channel < |semantic| && position !in semantic[..channel]
      decreases |semantic| - channel
    {
      assert position in semantic[channel + 1..] by {
        assert semantic == semantic[..channel] + [semantic[channel]] + semantic[channel + 1..];
      }
      channel := channel + 1;
      assert semantic[..channel] == semantic[..channel - 1] + [semantic[channel - 1]];
    }
  }

  // ---------------------------------------------------------------- permutation

  /** Every channel occurs exactly once. */
  ghost predicate IsPermutation(order: seq<nat>) {
    && (forall k :: 0 <= k < |order| ==> order[k] < |order|)
    && Distinct(order)
  }

  lemma ReorderIsPermutation(semantic: seq<Position>, sorted: seq<Position>, reorder: seq<nat>)
    requires IsReorder(semantic, sorted, reorder)
    ensures IsPermutation(reorder)
  {
  }

  /** A permutation reaches every channel. */
  lemma PermutationCovers(order: seq<nat>, c: nat)
    requires IsPermutation(order) && c < |order|
    ensures c in order
  {
    if c !in order {
      MissingValue(order, |order|, c);
    }
  }

  /** Distinct values below `n` that avoid one of them are fewer than `n`. */
  lemma {:induction false} MissingValue(s: seq<nat>, n: nat, c: nat)
    requires c < n && Bounded(s, n) && Distinct(s) && c !in s
    ensures |s| < n
  {
    if s != [] {
      var top := n - 1;
      if c == top {
        TopMissing(s, top);
        DistinctBelow(s, top);
      } else if top in s {
        var k := IndexOf(s, top);
        WithoutTop(s, top, k);
        MissingValue(Without(s, k), top, c);
      } else {
        TopMissing(s, top);
        MissingValue(s, top, c);
      }
    }
  }

  ghost predicate Bounded(s: seq<nat>, n: nat) {
    forall k :: 0 <= k < |s| ==> s[k] < n
  }

  function Without<T>(s: seq<T>, k: nat): (t: seq<T>)
    requires k < |s|
    ensures |t| == |s| - 1
  {
    s[..k] + s[k + 1..]
  }

  lemma IndexOf(s: seq<nat>, x: nat) returns (k: nat)
    requires x in s
    ensures k < |s| && s[k] == x
  {
    k :| 0 <= k < |s| && s[k] == x;
  }

  /** Distinct values up to `top`, without `top` itself. */
  lemma WithoutTop(s: seq<nat>, top: nat, k: nat)
    requires Bounded(s, top + 1) && Distinct(s) && k < |s| && s[k] == top
    ensures Bounded(Without(s, k), top) && Distinct(Without(s, k))
    ensures forall x :: x in Without(s, k) ==> x in s
  {
    var t := Without(s, k);
    forall i | 0 <= i < |t|
      ensures t[i] == s[if i < k then i else i + 1]
    {
    }
  }

  lemma TopMissing(s: seq<nat>, top: nat)
    requires Bounded(s, top + 1) && top !in s
    ensures Bounded(s, top)
  {
    forall k | 0 <= k < |s|
      ensures s[k] < top
    {
      assert s[k] in s;
    }
  }

  lemma {:induction false} DistinctBelow(s: seq<nat>, n: nat)
    requires Bounded(s, n) && Distinct(s)
    ensures |s| <= n
  {
    if s != [] {
      assert s[0] < n;
      var top := n - 1;
      if top in s {
        var k := IndexOf(s, top);
        WithoutTop(s, top, k);
        DistinctBelow(Without(s, k), top);
      } else {
        TopMissing(s, top);
        DistinctBelow(s, top);
      }
    }
  }

  // ---------------------------------------------------------------- pcm_buffer

  /** The outcome of building a buffer: indexing past the samples panics. */
  datatype Outcome<T> = Buffer(pcm: seq<T>, duration: nat) | FlowError | IndexPanic

  datatype PcmFrame<T> = PcmFrame(rate: nat, channels: nat, samples: nat, labels: seq<string>, pcm: seq<T>)

  predicate WellSized<T>(frame: PcmFrame<T>) {
    frame.rate != 0 && frame.channels != 0 && |frame.pcm| == Offset(frame.samples, frame.channels)
  }

  /** Where sample `s` begins in an interleaved frame. */
  function Offset(s: nat, channels: nat): nat {
    s * channels
  }

  lemma OffsetStep(s: nat, samples: nat, channels: nat)
    requires s < samples
    ensures Offset(s + 1, channels) == Offset(s, channels) + channels <= Offset(samples, channels)
  {
    Arithmetic.ProductMonotone(s + 1, samples, channels);
    assert (s + 1) * channels == s * channels + channels;
  }

  lemma OffsetStart(channels: nat)
    ensures Offset(0, channels) == 0
  {
  }

  /** Every channel named exists. */
  ghost predicate Within(order: seq<nat>, channels: nat) {
    forall k :: 0 <= k < |order| ==> order[k] < channels
  }

  /** One sample's channels in the given order. */
  function Reordered<T>(row: seq<T>, order: seq<nat>): (out: seq<T>)
    requires Within(order, |row|)
    ensures |out| == |order|
  {
    seq(|order|, k requires 0 <= k < |order| && order[k] < |row| => row[order[k]])
  }

  /** The channels of the sample that begins at `base`. */
  function RowAt<T>(pcm: seq<T>, channels: nat, base: nat): (row: seq<T>)
    requires base + channels <= |pcm|
    ensures |row| == channels
  {
    pcm[base..base + channels]
  }

  /** The first `n` rows, each reordered. */
  function ReorderRows<T>(pcm: seq<T>, channels: nat, order: seq<nat>, n: nat): (out: seq<T>)
    requires Offset(n, channels) <= |pcm| && Within(order, channels)
    ensures |out| == Offset(n, |order|)
  {
    if n == 0 then
      OffsetStart(|order|);
      []
    else
      OffsetStep(n - 1, n, channels);
      OffsetStep(n - 1, n, |order|);
      ReorderRows(pcm, channels, order, n - 1) + Reordered(RowAt(pcm, channels, Offset(n - 1, channels)), order)
  }

  lemma NoRows<T>(pcm: seq<T>, channels: nat, order: seq<nat>)
    requires Within(order, channels)
    ensures Offset(0, channels) == 0 && ReorderRows(pcm, channels, order, 0) == []
  {
    OffsetStart(channels);
  }

  lemma NextRow<T>(pcm: seq<T>, channels: nat, order: seq<nat>, n: nat)
    requires Offset(n + 1, channels) <= |pcm| && Within(order, channels)
    ensures Offset(n + 1, channels) == Offset(n, channels) + channels
    ensures Offset(n + 1, |order|) == Offset(n, |order|) + |order|
    ensures ReorderRows(pcm, channels, order, n + 1) ==
      ReorderRows(pcm, channels, order, n) + Reordered(RowAt(pcm, channels, Offset(n, channels)), order)
  {
    hide *;
    OffsetStep(n, n + 1, channels);
    OffsetStep(n, n + 1, |order|);
    UnfoldRows(pcm, channels, order, n);
  }

  lemma UnfoldRows<T>(pcm: seq<T>, channels: nat, order: seq<nat>, n: nat)
    requires Offset(n + 1, channels) <= |pcm| && Within(order, channels)
    requires Offset(n + 1, channels) == Offset(n, channels) + channels
    ensures ReorderRows(pcm, channels, order, n + 1) ==
      ReorderRows(pcm, channels, order, n) + Reordered(RowAt(pcm, channels, Offset(n, channels)), order)
  {
    hide Offset, Reordered, RowAt, Within;
  }

  /** `inverse` undoes `order`. */
  ghost predicate IsInverse(order: seq<nat>, inverse: seq<nat>) {
    && |inverse| == |order|
    && (forall k :: 0 <= k < |inverse| ==> inverse[k] < |order| && order[inverse[k]] == k)
  }

  /** Every permutation has an inverse. */
  lemma InverseExists(order: seq<nat>) returns (inverse: seq<nat>)
    requires IsPermutation(order)
    ensures IsInverse(order, inverse) && IsPermutation(inverse)
  {
    inverse := [];
    while |inverse| < |order|
      invariant |inverse| <= |order|
      invariant forall k :: 0 <= k < |inverse| ==> inverse[k] < |order| && order[inverse[k]] == k
    {
      PermutationCovers(order, |inverse|);
      var i :| 0 <= i < |order| && order[i] == |inverse|;
      inverse := inverse + [i];
    }
  }

  lemma RowRestored<T>(row: seq<T>, order: seq<nat>, inverse: seq<nat>)
    requires IsPermutation(order) && IsPermutation(inverse) && IsInverse(order, inverse) && |row| == |order|
    ensures Within(order, |row|) && Within(inverse, |row|)
    ensures Reordered(Reordered(row, order), inverse) == row
  {
    var out := Reordered(row, order);
    assert forall k :: 0 <= k < |row| ==> out[inverse[k]] == row[order[inverse[k]]];
  }

  lemma {:induction false} PrefixRows<T>(a: seq<T>, b: seq<T>, channels: nat, order: seq<nat>, n: nat)
    requires Offset(n, channels) <= |a| && a <= b && Within(order, channels)
    ensures Offset(n, channels) <= |b| && ReorderRows(a, channels, order, n) == ReorderRows(b, channels, order, n)
  {
    hide *;
    if n == 0 {
      NoRows(a, channels, order);
      NoRows(b, channels, order);
    } else {
      OffsetStep(n - 1, n, channels);
      PrefixRows(a, b, channels, order, n - 1);
      NextRow(a, channels, order, n - 1);
      NextRow(b, channels, order, n - 1);
      SameRowAt(a, b, channels, Offset(n - 1, channels));
    }
  }

  lemma SameRowAt<T>(a: seq<T>, b: seq<T>, channels: nat, base: nat)
    requires base + channels <= |a| && a <= b
    ensures RowAt(a, channels, base) == RowAt(b, channels, base)
  {
  }

  lemma RowBehind<T>(before: seq<T>, row: seq<T>)
    ensures RowAt(before + row, |row|, |before|) == row
  {
  }

  lemma NextPrefix<T>(pcm: seq<T>, channels: nat, base: nat)
    requires base + channels <= |pcm|
    ensures pcm[..base + channels] == pcm[..base] + RowAt(pcm, channels, base)
  {
  }

  /** Transport is lossless: undoing the permutation on every sample restores the interleaved frame. */
  lemma {:induction false} TransportIsLossless<T>(pcm: seq<T>, channels: nat, order: seq<nat>, inverse: seq<nat>,
      n: nat)
    requires IsPermutation(order) && IsPermutation(inverse) && IsInverse(order, inverse)
    requires |order| == channels && Offset(n, channels) <= |pcm|
    ensures Within(order, channels) && Within(inverse, channels)
    ensures ReorderRows(ReorderRows(pcm, channels, order, n), channels, inverse, n) == pcm[..Offset(n, channels)]
  {
    hide *;
    PermutationBounds(order);
    PermutationBounds(inverse);
    InverseLength(order, inverse);
    if n == 0 {
      NoRows(pcm, channels, order);
      NoRows(ReorderRows(pcm, channels, order, 0), channels, inverse);
    } else {
      var m := n - 1;
      OffsetStep(m, n, channels);
      TransportIsLossless(pcm, channels, order, inverse, m);
      NextRow(pcm, channels, order, m);
      var base := Offset(m, channels);
      var row := RowAt(pcm, channels, base);
      var before, out := ReorderRows(pcm, channels, order, m), ReorderRows(pcm, channels, order, n);
      PrefixRows(before, out, channels, inverse, m);
      NextRow(out, channels, inverse, m);
      RowBehind(before, Reordered(row, order));
      RowRestored(row, order, inverse);
      NextPrefix(pcm, channels, base);
    }
  }

  lemma PermutationBounds(order: seq<nat>)
    requires IsPermutation(order)
    ensures Within(order, |order|)
  {
  }

  lemma InverseLength(order: seq<nat>, inverse: seq<nat>)
    requires IsInverse(order, inverse)
    ensures |inverse| == |order|
  {
  }

  /** The frame's sizes agree and its labels have distinct positions. */
  ghost predicate Convertible<T>(frame: PcmFrame<T>, table: Positions) {
    WellSized(frame) && Known(frame.labels, table) && Distinct(SemanticPositions(frame.labels, table))
  }

  /** `pcm_buffer`. Without more labels than channels it never panics and the buffer is the reordered frame,
      restricted to the labelled channels; with more labels every nonempty frame runs past its samples. */
  method PcmBuffer<T>(frame: PcmFrame<T>, table: Positions) returns (r: Outcome<T>, ghost reorder: seq<nat>)
    ensures r.IndexPanic? <==> Convertible(frame, table) && frame.samples > 0 && |frame.labels| > frame.channels
    ensures r.FlowError? <==>
      || !Convertible(frame, table)
      || (!r.IndexPanic? && GstTime.SamplesToTime(frame.samples, frame.rate).None?)
    ensures r.Buffer? ==>
      && IsPermutation(reorder) && |reorder| == |frame.labels|
      && exists sorted :: IsReorder(SemanticPositions(frame.labels, table), sorted, reorder)
    ensures r.Buffer? && |frame.labels| <= frame.channels ==>
      && Offset(frame.samples, frame.channels) <= |frame.pcm| && Within(reorder, frame.channels)
      && r.pcm == ReorderRows(frame.pcm, frame.channels, reorder, frame.samples)
    ensures r.Buffer? && |frame.labels| > frame.channels ==> r.pcm == []
    ensures r.Buffer? ==>
      var exact := 2 * (frame.samples * GstTime.NANOS);
      exact - frame.rate < 2 * (r.duration * frame.rate) <= exact + frame.rate
  {
    GstTime.TimeIsNearest(frame.samples, frame.rate);
    hide Reordered, ReorderRows, Offset, Within, IsPermutation, GstTime.SamplesToTime, Known, SemanticPositions;
    reorder := [];
    if frame.rate == 0 || frame.channels == 0 || |frame.pcm| != Offset(frame.samples, frame.channels) {
      return FlowError, reorder;
    }
    var channelOrder := ChannelOrder(frame.labels, table);
    if channelOrder.None? {
      return FlowError, reorder;
    }
    var order := channelOrder.value.1;
    reorder := order;
    SortedLabels(frame.labels, table, channelOrder.value.0, order);
    var gathered := GatherRows(frame.pcm, frame.channels, frame.samples, order);
    if gathered.None? {
      return IndexPanic, reorder;
    }
    var duration := GstTime.SamplesToTime(frame.samples, frame.rate);
    if duration.None? {
      return FlowError, reorder;
    }
    return Buffer(gathered.value, duration.value), reorder;
  }

  lemma SortedLabels(labels: seq<string>, table: Positions, sorted: seq<Position>, order: seq<nat>)
    requires Known(labels, table) && IsReorder(SemanticPositions(labels, table), sorted, order)
    ensures IsPermutation(order) && |order| == |labels|
  {
    ReorderIsPermutation(SemanticPositions(labels, table), sorted, order);
  }

  /** Some channel named lies past the end of the samples. */
  ghost predicate Overruns(size: nat, base: nat, order: seq<nat>) {
    exists k :: 0 <= k < |order| && base + order[k] >= size
  }

  /** One sample's row, in the given order; `None` is an index past the end. */
  method GatherRow<T>(pcm: seq<T>, channels: nat, base: nat, order: seq<nat>) returns (r: Option<seq<T>>)
    requires base + channels <= |pcm|
    ensures r.None? <==> Overruns(|pcm|, base, order)
    ensures r.Some? && Within(order, channels) ==> r.value == Reordered(RowAt(pcm, channels, base), order)
  {
    var row: seq<T> := [];
    for k := 0 to |order|
      invariant |row| == k
      invariant forall j :: 0 <= j < k ==> base + order[j] < |pcm| && row[j] == pcm[base + order[j]]
    {
      var index := base + order[k];
      if index >= |pcm| {
        return None;
      }
      row := row + [pcm[index]];
    }
    return Some(row);
  }

  /** The loop over the samples: with more labels than channels the last sample, at the latest, overruns. */
  method GatherRows<T>(pcm: seq<T>, channels: nat, samples: nat, order: seq<nat>) returns (r: Option<seq<T>>)
    requires |pcm| == Offset(samples, channels) && IsPermutation(order)
    ensures r.None? <==> samples > 0 && |order| > channels
    ensures r.Some? && |order| <= channels ==>
      Within(order, channels) && r.value == ReorderRows(pcm, channels, order, samples)
    ensures r.Some? && |order| > channels ==> r.value == []
  {
    hide *;
    var out: seq<T> := [];
    OffsetStart(channels);
    if |order| <= channels {
      FewLabels(order, channels);
      NoRows(pcm, channels, order);
    }
    for sample := 0 to samples
      invariant |order| > channels ==> (sample < samples || samples == 0) && (sample == 0 ==> out == [])
      invariant |order| <= channels ==>
        && Offset(sample, channels) <= |pcm| && Within(order, channels)
        && out == ReorderRows(pcm, channels, order, sample)
    {
      OffsetStep(sample, samples, channels);
      RowOverruns(order, channels, |pcm|, Offset(sample, channels));
      var row := GatherRow(pcm, channels, Offset(sample, channels), order);
      if row.None? {
        return None;
      }
      if |order| <= channels {
        NextRow(pcm, channels, order, sample);
      }
      out := out + row.value;
    }
    return Some(out);
  }

  lemma FewLabels(order: seq<nat>, channels: nat)
    requires IsPermutation(order) && |order| <= channels
    ensures Within(order, channels)
  {
  }

  /** A row overruns only for want of channels, and then the last row does. */
  lemma RowOverruns(order: seq<nat>, channels: nat, size: nat, base: nat)
    requires IsPermutation(order) && base + channels <= size
    ensures Overruns(size, base, order) ==> |order| > channels
    ensures |order| > channels && base + channels == size ==> Overruns(size, base, order)
  {
    if |order| > channels {
      PermutationCovers(order, |order| - 1);
    }
  }
}
