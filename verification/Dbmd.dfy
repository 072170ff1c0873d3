/** The Dolby `dbmd` chunk: a version word, checksummed segments and an end marker. */
module Dbmd {
  import opened Wrappers
  import opened Bytes
  import opened AdmErrors

  /** One metadata segment. A stored size of zero means 65535 bytes. */
  datatype Segment = Segment(id: byte, sizeLow: byte, sizeHigh: byte, body: seq<byte>, checksum: byte) {
    function BodySize(): nat {
      SegmentSize(FromLe([sizeLow, sizeHigh]))
    }

    predicate Legal() {
      && id != 0
      && |body| == BodySize()
      && WrappingSum([sizeLow, sizeHigh] + body + [checksum]) == 0
    }

    function Encode(): seq<byte> {
      [id, sizeLow, sizeHigh] + body + [checksum]
    }
  }

  function SegmentSize(declared: nat): nat {
    if declared == 0 then 65535 else declared
  }

  /** The segment whose header starts at `c` and whose body has `n` bytes. */
  function SegmentIn(payload: seq<byte>, c: nat, n: nat): (s: Segment)
    requires c + 4 + n <= |payload|
  {
    Segment(payload[c], payload[c + 1], payload[c + 2], payload[c + 3..c + 3 + n], payload[c + 3 + n])
  }

  lemma SegmentInEncodes(payload: seq<byte>, c: nat, n: nat)
    requires c + 4 + n <= |payload|
    ensures SegmentIn(payload, c, n).Encode() == payload[c..c + 4 + n]
    ensures SegmentIn(payload, c, n).id == payload[c] && |SegmentIn(payload, c, n).body| == n
    ensures SegmentIn(payload, c, n).Legal() <==>
      payload[c] != 0 && n == SegmentSize(WordAt(payload, c + 1, 2)) && WrappingSum(payload[c + 1..c + 4 + n]) == 0
  {
    hide WrappingSum, SegmentSize, FromLe;
    var s := SegmentIn(payload, c, n);
    assert payload[c + 1..c + 4 + n] == [s.sizeLow, s.sizeHigh] + s.body + [s.checksum];
    assert payload[c + 1..c + 3] == [s.sizeLow, s.sizeHigh];
  }

  /** The `u8::wrapping_add` fold of the checksum. */
  function WrappingSum(bs: seq<byte>): byte {
    if bs == [] then 0 else (WrappingSum(bs[..|bs| - 1]) + bs[|bs| - 1]) % 256
  }

  function EncodeAll(segments: seq<Segment>): seq<seq<byte>> {
    seq(|segments|, i requires 0 <= i < |segments| => segments[i].Encode())
  }

  function Ids(segments: seq<Segment>): seq<byte> {
    seq(|segments|, i requires 0 <= i < |segments| => segments[i].id)
  }

  /** Where segment `k` (or, for `k == |segments|`, the end marker) starts. */
  function StartOf(segments: seq<Segment>, k: nat): nat
    requires k <= |segments|
  {
    4 + OffsetOf(EncodeAll(segments), k)
  }

  /** The language of `dbmd` payloads. */
  ghost predicate DbmdOf(payload: seq<byte>, segments: seq<Segment>) {
    var end := StartOf(segments, |segments|);
    && end + 1 <= |payload| <= end + 2
    && WordAt(payload, 0, 4) != 0
    && payload[4..end] == Flatten(EncodeAll(segments))
    && payload[end] == 0
    && forall i :: 0 <= i < |segments| ==> segments[i].Legal()
  }

  ghost predicate Accepted(payload: seq<byte>) {
    exists segments :: DbmdOf(payload, segments)
  }

  lemma EncodeAllPrefix(segments: seq<Segment>, k: nat)
    requires k <= |segments|
    ensures EncodeAll(segments[..k]) == EncodeAll(segments)[..k]
    ensures StartOf(segments, k) == StartOf(segments[..k], k)
  {
    assert EncodeAll(segments[..k])[..k] == EncodeAll(segments)[..k];
  }

  lemma EncodedSize(s: Segment)
    ensures |s.Encode()| == 4 + |s.body|
  {
  }

  lemma StartZero(segments: seq<Segment>)
    ensures StartOf(segments, 0) == 4
  {
    assert EncodeAll(segments)[..0] == [];
  }

  /** Segment `k` of an encoding. */
  lemma EncodedAt(segments: seq<Segment>, k: nat)
    requires k < |segments|
    ensures 4 <= StartOf(segments, k)
    ensures StartOf(segments, k + 1) ==
      StartOf(segments, k) + |segments[k].Encode()| <= 4 + |Flatten(EncodeAll(segments))|
    ensures Flatten(EncodeAll(segments))[StartOf(segments, k) - 4..StartOf(segments, k + 1) - 4] == segments[k].Encode()
  {
    hide Segment.Encode, Flatten;
    PartAt(EncodeAll(segments), k);
  }

  /** The parts of a legal payload. */
  lemma LegalParts(payload: seq<byte>, segments: seq<Segment>)
    requires DbmdOf(payload, segments)
    ensures var end := StartOf(segments, |segments|);
      && 4 <= end < |payload| <= end + 2 && payload[end] == 0
      && payload[4..end] == Flatten(EncodeAll(segments)) && WordAt(payload, 0, 4) != 0
    ensures forall i :: 0 <= i < |segments| ==> segments[i].Legal()
  {
    hide WordAt, EncodeAll, Segment.Legal;
  }

  lemma LegalAt(payload: seq<byte>, segments: seq<Segment>, k: nat)
    requires DbmdOf(payload, segments) && k < |segments|
    ensures segments[k].Legal() && segments[k].id != 0 && |segments[k].body| == segments[k].BodySize()
    ensures WrappingSum([segments[k].sizeLow, segments[k].sizeHigh] + segments[k].body + [segments[k].checksum]) == 0
  {
    LegalParts(payload, segments);
    hide DbmdOf, WrappingSum, Segment.BodySize;
  }

  /** In a legal payload, segment `k` stands at its computed start. */
  lemma SegmentAt(payload: seq<byte>, segments: seq<Segment>, k: nat)
    requires DbmdOf(payload, segments) && k < |segments|
    ensures var s, c := segments[k], StartOf(segments, k);
      && StartOf(segments, k + 1) == c + 4 + |s.body| < |payload|
      && payload[c..c + 4 + |s.body|] == s.Encode()
      && payload[c] == s.id && payload[c + 1] == s.sizeLow && payload[c + 2] == s.sizeHigh
      && payload[c + 1..c + 4 + |s.body|] == [s.sizeLow, s.sizeHigh] + s.body + [s.checksum]
  {
    hide *;
    var s, c, end := segments[k], StartOf(segments, k), StartOf(segments, |segments|);
    LegalParts(payload, segments);
    EncodedAt(segments, k);
    EncodedSize(s);
    SliceOfSlice(payload, 4, end, c - 4, c + |s.body|);
    HeaderOf(payload, s, c);
  }

  lemma HeaderOf(payload: seq<byte>, s: Segment, c: nat)
    requires c + 4 + |s.body| <= |payload| && payload[c..c + 4 + |s.body|] == s.Encode()
    ensures payload[c] == s.id && payload[c + 1] == s.sizeLow && payload[c + 2] == s.sizeHigh
    ensures payload[c + 1..c + 4 + |s.body|] == [s.sizeLow, s.sizeHigh] + s.body + [s.checksum]
  {
    var n := 4 + |s.body|;
    var slice := payload[c..c + n];
    assert payload[c] == slice[0] && payload[c + 1] == slice[1] && payload[c + 2] == slice[2];
    SliceOfSlice(payload, c, c + n, 1, n);
    assert s.Encode()[1..] == [s.sizeLow, s.sizeHigh] + s.body + [s.checksum];
  }

  /** Accepts exactly the language `DbmdOf` and reports its segment identifiers in order. */
  method ValidateDbmd(payload: seq<byte>) returns (r: Result<seq<byte>, AdmError>)
    ensures r.Ok? <==> Accepted(payload)
    ensures forall segments :: DbmdOf(payload, segments) ==> r == Ok(Ids(segments))
  {
    hide *;
    LegalHead(payload);
    ghost var model := FindParse(payload);
    if |payload| < 5 || WordAt(payload, 0, 4) == 0 {
      return Err(InvalidAdmBwf);
    }
    var cursor := 4;
    var segmentIds: seq<byte> := [];
    ghost var done: seq<Segment> := [];
    ScanStart(payload, done);
    while true
      invariant 4 <= cursor <= |payload|
      invariant Scanned(payload, done, cursor)
      invariant segmentIds == Ids(done)
      invariant model.Some? ==> DbmdOf(payload, model.value) && done <= model.value
      invariant model.None? ==> !Accepted(payload)
      decreases |payload| - cursor
    {
      if model.Some? {
        NextSegment(payload, model.value, done, cursor);
      }
      if cursor >= |payload| {
        return Err(InvalidAdmBwf);
      }
      ghost var start := cursor;
      var segmentId := payload[cursor];
      cursor := cursor + 1;
      if segmentId == 0 {
        if |payload[cursor..]| > 1 {
          return Err(InvalidAdmBwf);
        }
        ScanEnd(payload, done, start);
        Unambiguous(payload, done);
        return Ok(segmentIds);
      }
      segmentIds := segmentIds + [segmentId];
      var sizeEnd := cursor + 2;
      if sizeEnd > |payload| {
        return Err(InvalidAdmBwf);
      }
      var segmentSize := SegmentSize(WordAt(payload, cursor, 2));
      var payloadEnd := sizeEnd + segmentSize;
      var checksumEnd := payloadEnd + 1;
      if checksumEnd > |payload| {
        return Err(InvalidAdmBwf);
      }
      if WrappingSum(payload[cursor..checksumEnd]) != 0 {
        return Err(InvalidAdmBwf);
      }
      Extend(payload, done, start, segmentSize);
      done := done + [SegmentIn(payload, start, segmentSize)];
      cursor := checksumEnd;
    }
  }

  lemma LegalHead(payload: seq<byte>)
    ensures Accepted(payload) <==> exists segments :: DbmdOf(payload, segments)
    ensures Accepted(payload) ==> |payload| >= 5 && WordAt(payload, 0, 4) != 0
  {
    hide WordAt, EncodeAll;
  }

  /** A parse of the payload, if it has one. */
  lemma FindParse(payload: seq<byte>) returns (model: Option<seq<Segment>>)
    ensures model.Some? ==> DbmdOf(payload, model.value)
    ensures model.None? ==> !Accepted(payload)
  {
    hide DbmdOf;
    model := None;
    if segments :| DbmdOf(payload, segments) {
      model := Some(segments);
    }
  }

  lemma ScanStart(payload: seq<byte>, done: seq<Segment>)
    requires |payload| >= 4 && WordAt(payload, 0, 4) != 0 && done == []
    ensures Scanned(payload, done, 4) && Ids(done) == []
  {
    hide WordAt;
    assert EncodeAll(done) == [];
  }

  lemma ScanEnd(payload: seq<byte>, done: seq<Segment>, end: nat)
    requires Scanned(payload, done, end) && end < |payload| <= end + 2 && payload[end] == 0
    ensures DbmdOf(payload, done) && Accepted(payload)
  {
    hide WordAt, EncodeAll, StartOf, Segment.Legal;
  }

  /** `done` is a parse of the payload from its version word up to `cursor`. */
  ghost predicate Scanned(payload: seq<byte>, done: seq<Segment>, cursor: nat) {
    && 4 <= cursor <= |payload|
    && cursor == StartOf(done, |done|)
    && payload[4..cursor] == Flatten(EncodeAll(done))
    && WordAt(payload, 0, 4) != 0
    && forall i :: 0 <= i < |done| ==> done[i].Legal()
  }

  lemma ScannedParts(payload: seq<byte>, done: seq<Segment>, c: nat)
    requires Scanned(payload, done, c)
    ensures 4 <= c <= |payload| && c == StartOf(done, |done|)
    ensures payload[4..c] == Flatten(EncodeAll(done)) && WordAt(payload, 0, 4) != 0
  {
    hide WordAt, EncodeAll, StartOf, Segment.Legal;
  }

  /** What a legal payload holds after a scanned prefix of its parse. */
  lemma NextSegment(payload: seq<byte>, segments: seq<Segment>, done: seq<Segment>, c: nat)
    requires DbmdOf(payload, segments) && done <= segments && Scanned(payload, done, c)
    ensures c < |payload|
    ensures payload[c] == 0 <==> done == segments
    ensures done == segments ==> |payload| <= c + 2
    ensures done != segments ==> c + 3 <= |payload|
    ensures done != segments ==>
      var n := SegmentSize(WordAt(payload, c + 1, 2));
      && c + 4 + n <= |payload|
      && WrappingSum(payload[c + 1..c + 4 + n]) == 0
      && done + [SegmentIn(payload, c, n)] <= segments
  {
    hide *;
    var k := |done|;
    ScannedParts(payload, done, c);
    EncodeAllPrefix(segments, k);
    assert done == segments[..k];
    if k < |segments| {
      var s := segments[k];
      SegmentAt(payload, segments, k);
      LegalAt(payload, segments, k);
      SegmentInEncodes(payload, c, |s.body|);
      SameSegment(SegmentIn(payload, c, |s.body|), s);
      assert segments[..k + 1] == done + [s];
    } else {
      assert done == segments;
      LegalParts(payload, segments);
    }
  }

  lemma Appended(done: seq<Segment>, next: Segment)
    ensures StartOf(done + [next], |done| + 1) == StartOf(done, |done|) + |next.Encode()|
    ensures Flatten(EncodeAll(done + [next])) == Flatten(EncodeAll(done)) + next.Encode()
    ensures Ids(done + [next]) == Ids(done) + [next.id]
  {
    hide Segment.Encode;
    var parts, last := EncodeAll(done), [next.Encode()];
    assert EncodeAll(done + [next]) == parts + last;
    FlattenConcat(parts, last);
    assert Flatten(last) == next.Encode();
    assert parts[..|done|] == parts && (parts + last)[..|done| + 1] == parts + last;
  }

  /** Scanning one more segment extends the parsed prefix. */
  lemma Extend(payload: seq<byte>, done: seq<Segment>, start: nat, n: nat)
    requires Scanned(payload, done, start)
    requires start + 4 + n <= |payload|
    requires payload[start] != 0 && n == SegmentSize(WordAt(payload, start + 1, 2))
    requires WrappingSum(payload[start + 1..start + 4 + n]) == 0
    ensures Scanned(payload, done + [SegmentIn(payload, start, n)], start + 4 + n)
    ensures Ids(done + [SegmentIn(payload, start, n)]) == Ids(done) + [payload[start]]
  {
    hide *;
    var next := SegmentIn(payload, start, n);
    ScannedParts(payload, done, start);
    SegmentInEncodes(payload, start, n);
    EncodedSize(next);
    Appended(done, next);
    assert payload[4..start + 4 + n] == payload[4..start] + payload[start..start + 4 + n];
    ScanStep(payload, done, next, start, start + 4 + n);
  }

  lemma ScanStep(payload: seq<byte>, done: seq<Segment>, next: Segment, start: nat, cursor: nat)
    requires Scanned(payload, done, start) && next.Legal() && start <= cursor <= |payload|
    requires cursor == StartOf(done + [next], |done| + 1) && payload[4..cursor] == Flatten(EncodeAll(done + [next]))
    ensures Scanned(payload, done + [next], cursor)
  {
    hide WordAt, EncodeAll, StartOf, Segment.Legal;
  }

  lemma PrefixAt<T>(s: seq<T>, t: seq<T>, n: nat, i: nat)
    requires SamePrefix(s, t, n) && i < n
    ensures i < |s| && i < |t| && s[i] == t[i]
  {
  }

  lemma ShorterPrefix<T>(s: seq<T>, t: seq<T>, n: nat, m: nat)
    requires SamePrefix(s, t, n) && m <= n
    ensures SamePrefix(s, t, m)
  {
  }

  /** Two parses of payloads that agree up to segment `k`'s size field share their first `k` segments
      and the header of segment `k`. */
  lemma {:induction false} ParsesAgree(p: seq<byte>, q: seq<byte>, a: seq<Segment>, b: seq<Segment>, k: nat)
    requires DbmdOf(p, a) && DbmdOf(q, b) && k <= |a|
    requires SamePrefix(p, q, StartOf(a, k) + (if k < |a| then 3 else 1))
    ensures k <= |b| && a[..k] == b[..k] && StartOf(a, k) == StartOf(b, k)
    ensures k < |a| ==> k < |b| && a[k].id == b[k].id && a[k].sizeLow == b[k].sizeLow && a[k].sizeHigh == b[k].sizeHigh
    ensures k == |a| ==> k == |b|
  {
    hide *;
    var c := StartOf(a, k);
    var n := c + if k < |a| then 3 else 1;
    if k == 0 {
      StartZero(a);
      StartZero(b);
      assert a[..0] == b[..0];
    } else {
      SegmentAt(p, a, k - 1);
      ShorterPrefix(p, q, n, StartOf(a, k - 1) + 3);
      ParsesAgree(p, q, a, b, k - 1);
      SameSlice(p, q, n, StartOf(a, k - 1), c);
      SamePrefixFits(p, q, n);
      SegmentsAgree(p, q, a, b, k - 1);
      assert a[..k] == a[..k - 1] + [a[k - 1]] && b[..k] == b[..k - 1] + [b[k - 1]];
    }
    PrefixAt(p, q, n, c);
    if k < |a| {
      PrefixAt(p, q, n, c + 1);
      PrefixAt(p, q, n, c + 2);
    }
    HeadersAgree(p, q, a, b, k);
  }

  lemma SamePrefixFits<T>(s: seq<T>, t: seq<T>, n: nat)
    requires SamePrefix(s, t, n)
    ensures n <= |s| && n <= |t|
  {
  }

  lemma SegmentsAgree(p: seq<byte>, q: seq<byte>, a: seq<Segment>, b: seq<Segment>, k: nat)
    requires DbmdOf(p, a) && DbmdOf(q, b) && k < |a| && k < |b| && StartOf(a, k) == StartOf(b, k)
    requires a[k].sizeLow == b[k].sizeLow && a[k].sizeHigh == b[k].sizeHigh
    requires var c, n := StartOf(a, k), 4 + |a[k].body|;
      c + n <= |p| && c + n <= |q| && p[c..c + n] == q[c..c + n]
    ensures a[k] == b[k] && StartOf(a, k + 1) == StartOf(b, k + 1)
  {
    hide *;
    SegmentAt(p, a, k);
    SegmentAt(q, b, k);
    LegalAt(p, a, k);
    LegalAt(q, b, k);
    SameBodySize(a[k], b[k]);
    SameSegment(a[k], b[k]);
  }

  lemma SameBodySize(s: Segment, t: Segment)
    requires s.sizeLow == t.sizeLow && s.sizeHigh == t.sizeHigh
    ensures s.BodySize() == t.BodySize()
  {
  }

  lemma SameSegment(s: Segment, t: Segment)
    requires |s.body| == |t.body| && s.Encode() == t.Encode()
    ensures s == t
  {
    var n := |s.body|;
    assert s.body == s.Encode()[3..3 + n] && t.body == t.Encode()[3..3 + n];
    assert s.checksum == s.Encode()[3 + n] && t.checksum == t.Encode()[3 + n];
    assert s.id == s.Encode()[0] && s.sizeLow == s.Encode()[1] && s.sizeHigh == s.Encode()[2];
    assert t.id == t.Encode()[0] && t.sizeLow == t.Encode()[1] && t.sizeHigh == t.Encode()[2];
  }

  lemma HeadersAgree(p: seq<byte>, q: seq<byte>, a: seq<Segment>, b: seq<Segment>, k: nat)
    requires DbmdOf(p, a) && DbmdOf(q, b) && k <= |a| && k <= |b| && StartOf(a, k) == StartOf(b, k)
    requires var c := StartOf(a, k);
      && c < |p| && c < |q| && p[c] == q[c]
      && (k < |a| ==> c + 2 < |p| && c + 2 < |q| && p[c + 1] == q[c + 1] && p[c + 2] == q[c + 2])
    ensures k < |a| <==> k < |b|
    ensures k < |a| ==> a[k].id == b[k].id && a[k].sizeLow == b[k].sizeLow && a[k].sizeHigh == b[k].sizeHigh
  {
    hide *;
    LegalParts(p, a);
    LegalParts(q, b);
    if k < |a| {
      SegmentAt(p, a, k);
      LegalAt(p, a, k);
    }
    if k < |b| {
      SegmentAt(q, b, k);
      LegalAt(q, b, k);
    }
  }

  /** A payload has at most one parse. */
  lemma Unambiguous(payload: seq<byte>, segments: seq<Segment>)
    requires DbmdOf(payload, segments)
    ensures forall other :: DbmdOf(payload, other) ==> other == segments
  {
    hide *;
    var n := |segments|;
    LegalParts(payload, segments);
    forall other | DbmdOf(payload, other)
      ensures other == segments
    {
      PrefixOfItself(payload, StartOf(segments, n) + 1);
      ParsesAgree(payload, payload, segments, other, n);
      assert segments == segments[..n] == other[..n] == other;
    }
  }

  lemma PrefixOfItself<T>(s: seq<T>, n: nat)
    requires n <= |s|
    ensures SamePrefix(s, s, n)
  {
  }

  /** The exact sum whose low byte the checksum is. */
  function Total(bs: seq<byte>): nat {
    if bs == [] then 0 else Total(bs[..|bs| - 1]) + bs[|bs| - 1]
  }

  lemma {:induction false} SumIsLowByte(bs: seq<byte>)
    ensures WrappingSum(bs) == Total(bs) % 256
  {
    hide *;
    SumSteps(bs);
    if bs != [] {
      var n := |bs| - 1;
      SumIsLowByte(bs[..n]);
      LowByteStep(Total(bs[..n]), WrappingSum(bs[..n]), bs[n]);
    }
  }

  lemma SumSteps(bs: seq<byte>)
    ensures bs == [] ==> WrappingSum(bs) == Total(bs) == 0
    ensures bs != [] ==>
      var n := |bs| - 1;
      WrappingSum(bs) == (WrappingSum(bs[..n]) + bs[n]) % 256 && Total(bs) == Total(bs[..n]) + bs[n]
  {
  }

  lemma LowByteStep(total: nat, sum: nat, b: nat)
    requires sum == total % 256
    ensures (sum + b) % 256 == (total + b) % 256
  {
  }

  lemma {:induction false} TotalOfJoin(a: seq<byte>, b: seq<byte>)
    ensures Total(a + b) == Total(a) + Total(b)
  {
    if b == [] {
      assert a + b == a;
    } else {
      assert (a + b)[..|a + b| - 1] == a + b[..|b| - 1];
      TotalOfJoin(a, b[..|b| - 1]);
    }
  }

  /** A legal segment has as many bytes as its two size bytes say, least significant first and with zero for 65535,
      and its checksum makes up for the sum of sizes and body. */
  lemma LegalMeans(s: Segment)
    ensures s.Legal() <==>
      && s.id != 0
      && |s.body| == (if s.sizeLow == 0 && s.sizeHigh == 0 then 65535 else s.sizeLow + 256 * s.sizeHigh)
      && (s.sizeLow + s.sizeHigh + Total(s.body) + s.checksum) % 256 == 0
  {
    var sizes, check := [s.sizeLow, s.sizeHigh], [s.checksum];
    SumIsLowByte(sizes + s.body + check);
    TotalOfJoin(sizes + s.body, check);
    TotalOfJoin(sizes, s.body);
    assert Total(check) == s.checksum;
    assert sizes[..1] == [s.sizeLow] && Total(sizes[..1]) == s.sizeLow;
    hide WrappingSum, Total;
    assert sizes[1..] == [s.sizeHigh] && FromLe(sizes[1..]) == s.sizeHigh;
  }

  lemma {:induction false} TotalAfterChange(bs: seq<byte>, i: nat, b: byte)
    requires i < |bs|
    ensures Total(bs[i := b]) == Total(bs) + b - bs[i]
  {
    var n := |bs| - 1;
    var changed := bs[i := b];
    if i == n {
      assert changed[..n] == bs[..n];
    } else {
      TotalAfterChange(bs[..n], i, b);
      assert changed[..n] == bs[..n][i := b];
    }
  }

  lemma LowBytesDiffer(m: nat, n: nat)
    requires m != n && m < n + 256 && n < m + 256
    ensures m % 256 != n % 256
  {
  }

  lemma SegmentSum(payload: seq<byte>, segments: seq<Segment>, k: nat)
    requires DbmdOf(payload, segments) && k < |segments|
    ensures StartOf(segments, k + 1) == StartOf(segments, k) + 4 + segments[k].BodySize() <= |payload|
    ensures WrappingSum(payload[StartOf(segments, k) + 1..StartOf(segments, k + 1)]) == 0
  {
    hide *;
    SegmentAt(payload, segments, k);
    LegalAt(payload, segments, k);
  }

  lemma ChangedSum(payload: seq<byte>, from: nat, to: nat, at: nat, b: byte)
    requires from <= at < to <= |payload| && payload[at] != b
    ensures WrappingSum(payload[at := b][from..to]) != WrappingSum(payload[from..to])
  {
    hide WrappingSum, Total;
    var before, after := payload[from..to], payload[at := b][from..to];
    assert after == before[at - from := b] && before[at - from] == payload[at];
    TotalAfterChange(before, at - from, b);
    SumIsLowByte(before);
    SumIsLowByte(after);
    LowBytesDiffer(Total(before), Total(after));
  }

  /** Changing any one payload or checksum byte of an accepted segment is always detected. */
  lemma CorruptionDetected(payload: seq<byte>, segments: seq<Segment>, k: nat, at: nat, b: byte)
    requires DbmdOf(payload, segments) && k < |segments|
    requires StartOf(segments, k) + 3 <= at < StartOf(segments, k + 1)
    requires at < |payload| && payload[at] != b
    ensures !Accepted(payload[at := b])
  {
    hide *;
    var changed := payload[at := b];
    LegalHead(changed);
    forall other: seq<Segment> | DbmdOf(changed, other)
      ensures false
    {
      UnchangedPrefix(payload, at, b, StartOf(segments, k) + 3);
      ParsesAgree(payload, changed, segments, other, k);
      SameBodySize(segments[k], other[k]);
      SegmentSum(payload, segments, k);
      SegmentSum(changed, other, k);
      ChangedSum(payload, StartOf(segments, k) + 1, StartOf(segments, k + 1), at, b);
    }
  }

  lemma UnchangedPrefix<T>(s: seq<T>, at: nat, x: T, n: nat)
    requires n <= at < |s|
    ensures SamePrefix(s, s[at := x], n)
  {
  }

  /** A segment identifier is outside the checksum: renaming a segment to any other nonzero
      identifier is always accepted, and nothing else in the parse moves. */
  lemma RenamingUndetected(payload: seq<byte>, segments: seq<Segment>, k: nat, id: byte)
    requires DbmdOf(payload, segments) && k < |segments| && id != 0
    ensures StartOf(segments, k) < |payload|
    ensures DbmdOf(payload[StartOf(segments, k) := id], segments[k := segments[k].(id := id)])
  {
    hide *;
    var c, end := StartOf(segments, k), StartOf(segments, |segments|);
    SegmentAt(payload, segments, k);
    var renamed, changed := segments[k := segments[k].(id := id)], payload[c := id];
    LegalParts(payload, segments);
    EncodedAt(segments, k);
    EncodedSize(segments[k]);
    EncodingRenamed(segments, k, id);
    assert changed[4..end] == payload[4..end][c - 4 := id];
    SameSlice(payload, changed, 4, 0, 4) by { UnchangedPrefix(payload, c, id, 4); }
    SameHead(payload, changed);
    forall i | 0 <= i < |renamed|
      ensures renamed[i].Legal()
    {
      LegalAt(payload, segments, i);
      RenamedLegal(segments[i], id);
    }
    LegalFrom(changed, renamed, end);
  }

  lemma SameHead(payload: seq<byte>, changed: seq<byte>)
    requires |payload| >= 4 && |changed| >= 4 && payload[0..4] == changed[0..4]
    ensures WordAt(payload, 0, 4) == WordAt(changed, 0, 4)
  {
  }

  lemma RenamedLegal(s: Segment, id: byte)
    requires s.Legal() && id != 0
    ensures s.(id := id).Legal()
  {
  }

  lemma LegalFrom(payload: seq<byte>, segments: seq<Segment>, end: nat)
    requires end == StartOf(segments, |segments|) && 4 <= end && end + 1 <= |payload| <= end + 2 && payload[end] == 0
    requires WordAt(payload, 0, 4) != 0 && payload[4..end] == Flatten(EncodeAll(segments))
    requires forall i :: 0 <= i < |segments| ==> segments[i].Legal()
    ensures DbmdOf(payload, segments)
  {
    hide WordAt, EncodeAll, StartOf, Segment.Legal;
  }

  /** Renaming a segment changes one byte of the encoding. */
  lemma EncodingRenamed(segments: seq<Segment>, k: nat, id: byte)
    requires k < |segments|
    ensures 4 <= StartOf(segments, k) < 4 + |Flatten(EncodeAll(segments))|
    ensures var renamed := segments[k := segments[k].(id := id)];
      && StartOf(renamed, |segments|) == StartOf(segments, |segments|)
      && Flatten(EncodeAll(renamed)) == Flatten(EncodeAll(segments))[StartOf(segments, k) - 4 := id]
  {
    var renamed := segments[k := segments[k].(id := id)];
    var parts, parts' := EncodeAll(segments), EncodeAll(renamed);
    assert renamed[k].Encode() == [id] + parts[k][1..];
    assert parts' == parts[k := [id] + parts[k][1..]];
    hide Flatten;
    FlattenPoke(parts, k, id);
    assert parts[..|segments|] == parts && parts'[..|segments|] == parts';
  }

  lemma FlattenPoke(parts: seq<seq<byte>>, k: nat, b: byte)
    requires k < |parts| && parts[k] != []
    ensures OffsetOf(parts, k) < |Flatten(parts)|
    ensures Flatten(parts[k := [b] + parts[k][1..]]) == Flatten(parts)[OffsetOf(parts, k) := b]
  {
    var poked := [b] + parts[k][1..];
    var before, after := parts[..k], parts[k + 1..];
    assert parts == before + ([parts[k]] + after);
    assert parts[k := poked] == before + ([poked] + after);
    FlattenConcat(before, [parts[k]] + after);
    FlattenConcat(before, [poked] + after);
    assert ([parts[k]] + after)[1..] == after && ([poked] + after)[1..] == after;
  }

  /** The payload the exporter writes: version 1.0.0.0, no segment, one padding byte. */
  function DbmdPayload(): seq<byte> {
    Le(0x0100_0000, 4) + [0, 0]
  }

  lemma WrittenPayloadIsEmptyMetadata()
    ensures DbmdOf(DbmdPayload(), [])
    ensures |DbmdPayload()| == 6
  {
    var payload := DbmdPayload();
    WordRoundTrip(0x0100_0000);
    assert payload[0..4] == Le(0x0100_0000, 4);
    assert EncodeAll([]) == [] && EncodeAll([])[..0] == [];
    assert payload[4..4] == [];
  }
}
