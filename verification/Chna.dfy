/** The `chna` chunk (ITU-R BS.2088): forty-byte audioID records binding PCM tracks to ADM UIDs. */
module Chna {
  import opened Wrappers
  import opened Bytes
  import opened Text
  import opened AdmErrors
  import opened AdmIds
  import opened AdmTracks

  datatype ChnaRecord = ChnaRecord(uid: string, trackRef: string, packRef: string)

  const RECORD_SIZE := 40

  // ---------------------------------------------------------------- writing

  function FixedField(value: string, width: nat): (bs: seq<byte>)
    requires IsAscii(value) && |value| <= width
    ensures |bs| == width
  {
    AsciiBytes(value) + Zeros(width - |value|)
  }

  /** The track's identifiers fit the record's columns. */
  predicate Fits(t: TrackDescriptor) {
    && t.trackIndex < U16_LIMIT
    && IsAscii(t.uid) && |t.uid| <= 12
    && IsAscii(t.trackId) && |t.trackId| <= 14
    && IsAscii(t.packId) && |t.packId| <= 11
  }

  function RecordBytes(t: TrackDescriptor): (bs: seq<byte>)
    requires Fits(t)
    ensures |bs| == RECORD_SIZE
  {
    Le(t.trackIndex, 2) + FixedField(t.uid, 12) + FixedField(t.trackId, 14) + FixedField(t.packId, 11) + [0]
  }

  function AllRecords(tracks: seq<TrackDescriptor>): (bs: seq<byte>)
    requires forall i :: 0 <= i < |tracks| ==> Fits(tracks[i])
    ensures |bs| == RECORD_SIZE * |tracks|
  {
    if tracks == [] then [] else AllRecords(tracks[..|tracks| - 1]) + RecordBytes(tracks[|tracks| - 1])
  }

  function Payload(tracks: seq<TrackDescriptor>): (bs: seq<byte>)
    requires forall i :: 0 <= i < |tracks| ==> Fits(tracks[i])
    ensures |bs| == 4 + RECORD_SIZE * |tracks|
  {
    Le(|tracks|, 2) + Le(|tracks|, 2) + AllRecords(tracks)
  }

  method ChnaPayload(tracks: seq<TrackDescriptor>) returns (r: Result<seq<byte>, AdmError>)
    requires forall i :: 0 <= i < |tracks| ==> tracks[i].trackIndex < U16_LIMIT
    requires forall i :: 0 <= i < |tracks| ==>
      IsAscii(tracks[i].uid) && IsAscii(tracks[i].trackId) && IsAscii(tracks[i].packId)
    ensures r.Ok? <==> |tracks| < U16_LIMIT && forall i :: 0 <= i < |tracks| ==> Fits(tracks[i])
    ensures r.Ok? ==> r.value == Payload(tracks)
    ensures r.Err? ==> r.error == SizeOverflow
  {
    if |tracks| >= U16_LIMIT {
      return Err(SizeOverflow);
    }
    var payload := Le(|tracks|, 2) + Le(|tracks|, 2);
    ghost var counts := payload;
    for k := 0 to |tracks|
      invariant forall i :: 0 <= i < k ==> Fits(tracks[i])
      invariant payload == counts + AllRecords(tracks[..k])
    {
      var t := tracks[k];
      if |t.uid| > 12 || |t.trackId| > 14 || |t.packId| > 11 {
        return Err(SizeOverflow);
      }
      payload := payload + Le(t.trackIndex, 2) + FixedField(t.uid, 12) + FixedField(t.trackId, 14)
        + FixedField(t.packId, 11) + [0];
      assert tracks[..k + 1][..k] == tracks[..k];
      assert payload == counts + (AllRecords(tracks[..k]) + RecordBytes(t));
    }
    assert tracks[..|tracks|] == tracks;
    r := Ok(payload);
  }

  // ---------------------------------------------------------------- reading

  /** A zero-terminated (or full-width) nonempty ASCII identifier. */
  function ReadFixedId(bs: seq<byte>): Option<string> {
    var end := TextEnd(bs);
    if end > 0 && (forall i :: end <= i < |bs| ==> bs[i] == 0) && (forall i :: 0 <= i < end ==> bs[i] < 128)
    then Some(seq(end, i requires 0 <= i < end => bs[i] as char))
    else None
  }

  /** The index of the first zero byte. */
  function TextEnd(bs: seq<byte>): (end: nat)
    ensures end <= |bs|
    ensures forall i :: 0 <= i < end ==> bs[i] != 0
    ensures end < |bs| ==> bs[end] == 0
  {
    if bs == [] || bs[0] == 0 then 0 else 1 + TextEnd(bs[1..])
  }

  function RecordAt(payload: seq<byte>, i: nat): (record: seq<byte>)
    requires 4 + RECORD_SIZE * (i + 1) <= |payload|
    ensures |record| == RECORD_SIZE
  {
    payload[4 + RECORD_SIZE * i..4 + RECORD_SIZE * (i + 1)]
  }

  predicate RecordOk(record: seq<byte>, tracks: nat)
    requires |record| == RECORD_SIZE
  {
    var uid, trackRef, packRef := ReadFixedId(record[2..14]), ReadFixedId(record[14..28]), ReadFixedId(record[28..39]);
    && 1 <= WordAt(record, 0, 2) <= tracks
    && record[39] == 0
    && uid.Some? && IsAdmId(uid.value, TrackUid)
    && trackRef.Some? && (IsAdmId(trackRef.value, TrackFormat) || IsAdmId(trackRef.value, Channel))
    && packRef.Some? && IsAdmId(packRef.value, Pack)
  }

  function RecordOf(record: seq<byte>, tracks: nat): ChnaRecord
    requires |record| == RECORD_SIZE && RecordOk(record, tracks)
  {
    ChnaRecord(ReadFixedId(record[2..14]).value, ReadFixedId(record[14..28]).value, ReadFixedId(record[28..39]).value)
  }

  predicate HeaderOk(payload: seq<byte>, channels: nat) {
    && |payload| >= 4 && (|payload| - 4) % RECORD_SIZE == 0
    && WordAt(payload, 0, 2) == channels
    && 0 < WordAt(payload, 2, 2)
    && 4 + RECORD_SIZE * WordAt(payload, 2, 2) <= |payload|
  }

  /** The first `|records|` stored records are legal, have distinct UIDs, and read as `records`. */
  ghost predicate Reads(payload: seq<byte>, channels: nat, records: seq<ChnaRecord>) {
    && 4 + RECORD_SIZE * |records| <= |payload|
    && (forall i :: 0 <= i < |records| ==>
          RecordOk(RecordAt(payload, i), channels) && records[i] == RecordOf(RecordAt(payload, i), channels))
    && (forall i, j :: 0 <= i < j < |records| ==> records[i].uid != records[j].uid)
  }

  /** `records` is what a legal payload for `channels` PCM tracks says. */
  ghost predicate ChnaOf(payload: seq<byte>, channels: nat, records: seq<ChnaRecord>) {
    && HeaderOk(payload, channels)
    && |records| == WordAt(payload, 2, 2)
    && Reads(payload, channels, records)
    && (forall t :: 1 <= t <= channels ==> Referenced(payload, |records|, t))
    && (forall i :: 4 + RECORD_SIZE * |records| <= i < |payload| ==> payload[i] == 0)
  }

  /** One of the first `count` records describes PCM track `t`. */
  ghost predicate Referenced(payload: seq<byte>, count: nat, t: nat)
    requires 4 + RECORD_SIZE * count <= |payload|
  {
    exists i :: 0 <= i < count && TrackOf(payload, count, i) == t
  }

  function TrackOf(payload: seq<byte>, count: nat, i: nat): nat
    requires 4 + RECORD_SIZE * count <= |payload| && i < count
  {
    WordAt(RecordAt(payload, i), 0, 2)
  }

  ghost predicate Accepted(payload: seq<byte>, channels: nat) {
    exists records :: ChnaOf(payload, channels, records)
  }

  method ParseChna(payload: seq<byte>, channels: nat) returns (r: Result<seq<ChnaRecord>, AdmError>)
    ensures r.Ok? <==> Accepted(payload, channels)
    ensures r.Ok? ==> ChnaOf(payload, channels, r.value)
  {
    hide *;
    ghost var model := FindReading(payload, channels);
    if !HeaderOk(payload, channels) {
      return Err(InvalidAdmBwf);
    }
    HeaderMeans(payload, channels);
    var uidCount := WordAt(payload, 2, 2);
    var records: seq<ChnaRecord> := [];
    var uids: set<string> := {};
    var referenced: set<nat> := {};
    NothingRead(payload, channels, records);
    for index := 0 to uidCount
      invariant |records| == index && Reads(payload, channels, records)
      invariant model.Some? ==> ChnaOf(payload, channels, model.value) && records <= model.value
      invariant model.None? ==> !Accepted(payload, channels)
      invariant forall u :: u in uids <==> HasUid(records, u)
      invariant 4 + RECORD_SIZE * index <= |payload|
      invariant forall t :: t in referenced <==> Referenced(payload, index, t)
      invariant forall t :: t in referenced ==> 1 <= t <= channels
    {
      RecordFits(payload, uidCount, index);
      if model.Some? {
        ChnaMeans(payload, channels, model.value);
        NextRecord(payload, channels, model.value, records);
      }
      var record := RecordAt(payload, index);
      if !RecordOk(record, channels) {
        return Err(InvalidAdmBwf);
      }
      var parsed := RecordOf(record, channels);
      if parsed.uid in uids {
        return Err(InvalidAdmBwf);
      }
      TrackInRange(record, channels);
      ReadsStep(payload, channels, records);
      ReferencedStep(payload, index);
      uids := uids + {parsed.uid};
      referenced := referenced + {WordAt(record, 0, 2)};
      records := records + [parsed];
    }
    if model.Some? {
      ChnaMeans(payload, channels, model.value);
      assert records == model.value;
    }
    ReferencedAll(referenced, channels);
    if |referenced| != channels {
      return Err(InvalidAdmBwf);
    }
    if exists i | 4 + RECORD_SIZE * uidCount <= i < |payload| :: payload[i] != 0 {
      return Err(InvalidAdmBwf);
    }
    ChnaFrom(payload, channels, records);
    return Ok(records);
  }

  lemma HeaderMeans(payload: seq<byte>, channels: nat)
    requires HeaderOk(payload, channels)
    ensures |payload| >= 4 && 0 <= 4 + RECORD_SIZE * WordAt(payload, 2, 2) <= |payload|
  {
    hide WordAt;
  }

  lemma RecordFits(payload: seq<byte>, count: nat, index: nat)
    requires 4 + RECORD_SIZE * count <= |payload| && index < count
    ensures 4 + RECORD_SIZE * (index + 1) <= |payload| && RECORD_SIZE == 40
  {
  }

  /** A reading of the payload, if it has one. */
  lemma FindReading(payload: seq<byte>, channels: nat) returns (model: Option<seq<ChnaRecord>>)
    ensures model.Some? ==> ChnaOf(payload, channels, model.value) && HeaderOk(payload, channels)
    ensures model.None? ==> !Accepted(payload, channels)
  {
    hide HeaderOk, Reads, Referenced;
    model := None;
    if stored :| ChnaOf(payload, channels, stored) {
      model := Some(stored);
    }
  }

  lemma NothingRead(payload: seq<byte>, channels: nat, records: seq<ChnaRecord>)
    requires records == [] && |payload| >= 4
    ensures RECORD_SIZE * 0 == 0 && Reads(payload, channels, records)
    ensures forall u :: !HasUid(records, u)
    ensures forall t :: !Referenced(payload, 0, t)
  {
  }

  lemma ChnaMeans(payload: seq<byte>, channels: nat, records: seq<ChnaRecord>)
    requires ChnaOf(payload, channels, records)
    ensures HeaderOk(payload, channels) && |payload| >= 4 && |records| == WordAt(payload, 2, 2)
    ensures 4 + RECORD_SIZE * |records| <= |payload|
    ensures forall t :: 1 <= t <= channels ==> Referenced(payload, |records|, t)
    ensures forall i :: 4 + RECORD_SIZE * |records| <= i < |payload| ==> payload[i] == 0
  {
    hide WordAt, Referenced, Reads;
  }

  lemma ChnaFrom(payload: seq<byte>, channels: nat, records: seq<ChnaRecord>)
    requires HeaderOk(payload, channels) && |payload| >= 4 && |records| == WordAt(payload, 2, 2)
    requires 4 + RECORD_SIZE * |records| <= |payload| && Reads(payload, channels, records)
    requires forall t :: 1 <= t <= channels ==> Referenced(payload, |records|, t)
    requires forall i :: 4 + RECORD_SIZE * |records| <= i < |payload| ==> payload[i] == 0
    ensures ChnaOf(payload, channels, records) && Accepted(payload, channels)
  {
    hide WordAt, Referenced, Reads, HeaderOk;
  }

  /** A legal payload's next record is legal, new, and continues its reading. */
  lemma NextRecord(payload: seq<byte>, channels: nat, stored: seq<ChnaRecord>, records: seq<ChnaRecord>)
    requires ChnaOf(payload, channels, stored) && records < stored
    ensures RecordOk(RecordAt(payload, |records|), channels)
    ensures var parsed := RecordOf(RecordAt(payload, |records|), channels);
      && records + [parsed] <= stored
      && !HasUid(records, parsed.uid)
  {
    assert stored[|records|] == RecordOf(RecordAt(payload, |records|), channels);
  }

  ghost predicate HasUid(records: seq<ChnaRecord>, uid: string) {
    exists i :: 0 <= i < |records| && records[i].uid == uid
  }

  lemma TrackInRange(record: seq<byte>, channels: nat)
    requires |record| == RECORD_SIZE && RecordOk(record, channels)
    ensures 1 <= WordAt(record, 0, 2) <= channels
  {
  }

  lemma ReadsStep(payload: seq<byte>, channels: nat, records: seq<ChnaRecord>)
    requires Reads(payload, channels, records)
    requires 4 + RECORD_SIZE * (|records| + 1) <= |payload|
    requires RecordOk(RecordAt(payload, |records|), channels)
    requires !HasUid(records, RecordOf(RecordAt(payload, |records|), channels).uid)
    ensures var parsed := RecordOf(RecordAt(payload, |records|), channels);
      && Reads(payload, channels, records + [parsed])
      && forall u :: HasUid(records + [parsed], u) <==> HasUid(records, u) || u == parsed.uid
  {
    hide RecordOk, RecordOf, RecordAt;
    var parsed := RecordOf(RecordAt(payload, |records|), channels);
    var more := records + [parsed];
    assert forall i :: 0 <= i < |records| ==> more[i] == records[i];
    forall u
      ensures HasUid(more, u) <==> HasUid(records, u) || u == parsed.uid
    {
      assert more[|records|] == parsed;
      if HasUid(records, u) {
        var i :| 0 <= i < |records| && records[i].uid == u;
        assert more[i].uid == u;
      }
    }
  }

  lemma ReferencedStep(payload: seq<byte>, count: nat)
    requires 4 + RECORD_SIZE * (count + 1) <= |payload|
    ensures forall t :: Referenced(payload, count + 1, t) <==>
      Referenced(payload, count, t) || t == WordAt(RecordAt(payload, count), 0, 2)
  {
    forall t
      ensures Referenced(payload, count + 1, t) <==>
        Referenced(payload, count, t) || t == WordAt(RecordAt(payload, count), 0, 2)
    {
      if Referenced(payload, count, t) {
        var i :| 0 <= i < count && TrackOf(payload, count, i) == t;
        assert TrackOf(payload, count + 1, i) == t;
      }
      if Referenced(payload, count + 1, t) {
        var i :| 0 <= i < count + 1 && TrackOf(payload, count + 1, i) == t;
        if i < count {
          assert TrackOf(payload, count, i) == t;
        }
      }
      assert TrackOf(payload, count + 1, count) == WordAt(RecordAt(payload, count), 0, 2);
    }
  }

  /** Counting distinct referenced tracks decides whether every track is referenced. */
  lemma ReferencedAll(referenced: set<nat>, channels: nat)
    requires forall t :: t in referenced ==> 1 <= t <= channels
    ensures |referenced| == channels <==> forall t :: 1 <= t <= channels ==> t in referenced
  {
    if channels == 0 {
      assert referenced == {};
    } else {
      ReferencedAll(referenced - {channels}, channels - 1);
      if channels in referenced {
        assert referenced == (referenced - {channels}) + {channels};
      } else {
        assert referenced - {channels} == referenced;
        Pigeonhole(referenced, channels - 1);
      }
    }
  }

  lemma {:induction false} Pigeonhole(s: set<nat>, n: nat)
    requires forall t :: t in s ==> 1 <= t <= n
    ensures |s| <= n
  {
    if n == 0 {
      assert s == {};
    } else {
      Pigeonhole(s - {n}, n - 1);
      assert |s| <= |s - {n}| + 1;
    }
  }

  // ---------------------------------------------------------------- round trip

  function RecordFor(t: TrackDescriptor): ChnaRecord {
    ChnaRecord(t.uid, t.trackId, t.packId)
  }

  lemma FieldRoundTrip(value: string, width: nat)
    requires IsAscii(value) && 0 < |value| <= width
    requires forall i :: 0 <= i < |value| ==> value[i] != 0 as char
    ensures ReadFixedId(FixedField(value, width)) == Some(value)
  {
    var bs := FixedField(value, width);
    assert forall i :: 0 <= i < |value| ==> bs[i] == value[i] as int && bs[i] != 0;
    assert forall i :: |value| <= i < width ==> bs[i] == 0;
    if |value| < width {
      assert bs[|value|] == 0;
    }
    assert seq(|value|, i requires 0 <= i < |value| => bs[i] as char) == value;
  }

  lemma RecordColumns(t: TrackDescriptor)
    requires Fits(t)
    ensures var bs := RecordBytes(t);
      && bs[0..2] == Le(t.trackIndex, 2) && bs[2..14] == FixedField(t.uid, 12)
      && bs[14..28] == FixedField(t.trackId, 14) && bs[28..39] == FixedField(t.packId, 11) && bs[39] == 0
  {
  }

  /** The identifiers of a track in the ranges every planned track meets. */
  predicate Storable(t: TrackDescriptor, channels: nat) {
    && 1 <= t.trackIndex <= channels < U16_LIMIT
    && IsAdmId(t.uid, TrackUid) && IsAdmId(t.trackId, TrackFormat) && IsAdmId(t.packId, Pack)
  }

  lemma PlannedIsStorable(t: TrackDescriptor, i: nat, lfe: bool, channels: nat)
    requires t.Neutral() == PlannedTrack(i, lfe) && i < channels < 0x1000
    ensures Storable(t, channels) && Counter(t.uid, UidCounter) == Some(i + 1) && t.trackIndex == i + 1
  {
    TrackIds(t, i, lfe);
  }

  lemma StorableFits(t: TrackDescriptor, channels: nat)
    requires Storable(t, channels)
    ensures Fits(t)
  {
    IdsAreAsciiWords(t.uid, TrackUid);
    IdsAreAsciiWords(t.trackId, TrackFormat);
    IdsAreAsciiWords(t.packId, Pack);
  }

  lemma RecordRoundTrip(t: TrackDescriptor, channels: nat)
    requires Storable(t, channels) && Fits(t)
    ensures RecordOk(RecordBytes(t), channels)
    ensures RecordOf(RecordBytes(t), channels) == RecordFor(t)
    ensures WordAt(RecordBytes(t), 0, 2) == t.trackIndex
  {
    IdsAreAsciiWords(t.uid, TrackUid);
    IdsAreAsciiWords(t.trackId, TrackFormat);
    IdsAreAsciiWords(t.packId, Pack);
    RecordColumns(t);
    FieldRoundTrip(t.uid, 12);
    FieldRoundTrip(t.trackId, 14);
    FieldRoundTrip(t.packId, 11);
    WordRoundTrip(t.trackIndex);
  }

  lemma {:induction false} RecordBytesAt(tracks: seq<TrackDescriptor>, i: nat)
    requires forall k :: 0 <= k < |tracks| ==> Fits(tracks[k])
    requires i < |tracks|
    ensures AllRecords(tracks)[RECORD_SIZE * i..RECORD_SIZE * (i + 1)] == RecordBytes(tracks[i])
  {
    var n := |tracks| - 1;
    var before, last := AllRecords(tracks[..n]), RecordBytes(tracks[n]);
    assert AllRecords(tracks) == before + last;
    if i < n {
      RecordBytesAt(tracks[..n], i);
      assert (before + last)[RECORD_SIZE * i..RECORD_SIZE * (i + 1)] == before[RECORD_SIZE * i..RECORD_SIZE * (i + 1)];
    } else {
      assert (before + last)[|before|..|before| + RECORD_SIZE] == last;
    }
  }

  lemma RecordInPayload(tracks: seq<TrackDescriptor>, i: nat)
    requires forall k :: 0 <= k < |tracks| ==> Fits(tracks[k])
    requires i < |tracks|
    ensures RecordAt(Payload(tracks), i) == RecordBytes(tracks[i])
  {
    RecordBytesAt(tracks, i);
    var payload := Payload(tracks);
    assert payload[4..] == AllRecords(tracks);
    SliceOfSlice(payload, 4, |payload|, RECORD_SIZE * i, RECORD_SIZE * (i + 1));
  }

  lemma PayloadCounts(tracks: seq<TrackDescriptor>)
    requires |tracks| < U16_LIMIT
    requires forall k :: 0 <= k < |tracks| ==> Fits(tracks[k])
    ensures WordAt(Payload(tracks), 0, 2) == |tracks| == WordAt(Payload(tracks), 2, 2)
    ensures tracks != [] ==> HeaderOk(Payload(tracks), |tracks|)
  {
    assert (RECORD_SIZE * |tracks|) % RECORD_SIZE == 0;
    var payload := Payload(tracks);
    assert payload[0..2] == Le(|tracks|, 2) && payload[2..4] == Le(|tracks|, 2);
    WordRoundTrip(|tracks|);
  }

  function RecordsFor(tracks: seq<TrackDescriptor>): seq<ChnaRecord> {
    seq(|tracks|, i requires 0 <= i < |tracks| => RecordFor(tracks[i]))
  }

  lemma StoredRecord(tracks: seq<TrackDescriptor>, i: nat)
    requires i < |tracks| && forall k :: 0 <= k < |tracks| ==> Storable(tracks[k], |tracks|) && Fits(tracks[k])
    requires tracks[i].trackIndex == i + 1
    ensures var record := RecordAt(Payload(tracks), i);
      RecordOk(record, |tracks|) && RecordOf(record, |tracks|) == RecordFor(tracks[i])
    ensures TrackOf(Payload(tracks), |tracks|, i) == i + 1
  {
    RecordInPayload(tracks, i);
    RecordRoundTrip(tracks[i], |tracks|);
  }

  /** Every plan's `chna` chunk parses back to exactly the plan's identifiers, in track order. */
  lemma ChnaRoundTrip(tracks: seq<TrackDescriptor>, signals: nat, lfe: bool)
    requires IsTrackTable(tracks, signals, lfe)
    ensures forall i :: 0 <= i < |tracks| ==> Fits(tracks[i])
    ensures ChnaOf(Payload(tracks), |tracks|, RecordsFor(tracks))
  {
    var n := |tracks|;
    forall i | 0 <= i < n
      ensures Storable(tracks[i], n) && Fits(tracks[i])
      ensures Counter(tracks[i].uid, UidCounter) == Some(i + 1) && tracks[i].trackIndex == i + 1
    {
      assert InPlace(tracks, i, lfe);
      PlannedIsStorable(tracks[i], i, lfe, n);
      StorableFits(tracks[i], n);
    }
    PayloadCounts(tracks);
    PlannedReading(tracks);
  }

  lemma PlannedReading(tracks: seq<TrackDescriptor>)
    requires forall i :: 0 <= i < |tracks| ==>
      && Storable(tracks[i], |tracks|) && Fits(tracks[i])
      && Counter(tracks[i].uid, UidCounter) == Some(i + 1) && tracks[i].trackIndex == i + 1
    ensures Reads(Payload(tracks), |tracks|, RecordsFor(tracks))
    ensures forall t :: 1 <= t <= |tracks| ==> Referenced(Payload(tracks), |tracks|, t)
  {
    hide RecordOk, RecordOf, Fits, Storable, Counter;
    var payload, n := Payload(tracks), |tracks|;
    assert forall k :: 0 <= k < n ==> Storable(tracks[k], n) && Fits(tracks[k]);
    forall i | 0 <= i < n
      ensures RecordOk(RecordAt(payload, i), n) && RecordFor(tracks[i]) == RecordOf(RecordAt(payload, i), n)
      ensures TrackOf(payload, n, i) == i + 1
    {
      StoredRecord(tracks, i);
    }
    forall t | 1 <= t <= n
      ensures Referenced(payload, n, t)
    {
      assert TrackOf(payload, n, t - 1) == t;
    }
    DistinctUids(tracks);
  }

  lemma DistinctUids(tracks: seq<TrackDescriptor>)
    requires forall i :: 0 <= i < |tracks| ==> Counter(tracks[i].uid, UidCounter) == Some(i + 1)
    ensures forall i, j :: 0 <= i < j < |tracks| ==> tracks[i].uid != tracks[j].uid
  {
  }
}
