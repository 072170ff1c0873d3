/** The legal `chna` payloads, as the bytes a writer of some table would store. */
module ChnaLanguage {
  import opened Wrappers
  import opened Bytes
  import opened Text
  import opened AdmIds
  import opened Chna

  // ---------------------------------------------------------------- fields

  predicate FieldFits(value: string, width: nat) {
    0 < |value| <= width && IsAscii(value) && forall i :: 0 <= i < |value| ==> value[i] != 0 as char
  }

  /** A text in a column of fixed width, behind it zeros. */
  function Column(value: string, width: nat): (bs: seq<byte>)
    ensures |bs| == width
  {
    if IsAscii(value) && |value| <= width then FixedField(value, width) else Zeros(width)
  }

  /** A column reads as a text exactly when it holds that text. */
  lemma FieldMeans(bs: seq<byte>, value: string)
    ensures ReadFixedId(bs) == Some(value) <==> FieldFits(value, |bs|) && bs == Column(value, |bs|)
  {
    if FieldFits(value, |bs|) {
      FieldRoundTrip(value, |bs|);
    }
    if ReadFixedId(bs) == Some(value) {
      var end := TextEnd(bs);
      assert forall i :: 0 <= i < end ==> value[i] == bs[i] as char && bs[i] != 0;
      assert IsAscii(value) && |value| == end;
      assert bs == bs[..end] + bs[end..];
      assert bs[..end] == AsciiBytes(value) && bs[end..] == Zeros(|bs| - end);
    }
  }

  // ---------------------------------------------------------------- records

  /** A table row: a PCM track and the identifiers it is bound to. */
  datatype Row = Row(track: nat, record: ChnaRecord)

  predicate Legal(row: Row, channels: nat) {
    && 1 <= row.track <= channels && row.track < U16_LIMIT
    && IsAdmId(row.record.uid, TrackUid) && IsAdmId(row.record.packRef, Pack)
    && (IsAdmId(row.record.trackRef, TrackFormat) || IsAdmId(row.record.trackRef, Channel))
  }

  function RowBytes(row: Row): (bs: seq<byte>)
    ensures |bs| == 40
  {
    Le(row.track, 2) + Column(row.record.uid, 12) + Column(row.record.trackRef, 14) +
    Column(row.record.packRef, 11) + [0]
  }

  lemma LegalFits(row: Row, channels: nat)
    requires Legal(row, channels)
    ensures FieldFits(row.record.uid, 12) && FieldFits(row.record.trackRef, 14) && FieldFits(row.record.packRef, 11)
  {
    IdFits(row.record.uid, TrackUid);
    IdFits(row.record.packRef, Pack);
    if IsAdmId(row.record.trackRef, TrackFormat) {
      IdFits(row.record.trackRef, TrackFormat);
    } else {
      IdFits(row.record.trackRef, Channel);
    }
  }

  lemma IdFits(value: string, kind: IdKind)
    requires IsAdmId(value, kind)
    ensures FieldFits(value, |Prefix(kind)| + BodyLength(kind))
  {
    IdsAreAsciiWords(value, kind);
  }

  lemma RowColumns(record: seq<byte>, row: Row)
    requires |record| == 40
    ensures record == RowBytes(row) <==>
      && record[0..2] == Le(row.track, 2) && record[2..14] == Column(row.record.uid, 12)
      && record[14..28] == Column(row.record.trackRef, 14) && record[28..39] == Column(row.record.packRef, 11)
      && record[39] == 0
  {
    hide Le, Column;
    var bs := RowBytes(row);
    assert bs[0..2] == Le(row.track, 2) && bs[2..14] == Column(row.record.uid, 12);
    assert bs[14..28] == Column(row.record.trackRef, 14) && bs[28..39] == Column(row.record.packRef, 11);
    assert bs[39] == 0;
    assert record == record[0..2] + record[2..14] + record[14..28] + record[28..39] + [record[39]];
  }

  ghost predicate RowReads(record: seq<byte>, channels: nat, row: Row)
    requires |record| == 40
  {
    RecordOk(record, channels) && RecordOf(record, channels) == row.record && WordAt(record, 0, 2) == row.track
  }

  /** Forty bytes read as a row exactly when they are the row's bytes. */
  lemma RowMeans(record: seq<byte>, channels: nat, row: Row)
    requires |record| == 40
    ensures RowReads(record, channels, row) <==> Legal(row, channels) && record == RowBytes(row)
  {
    hide RowBytes, ReadFixedId, WordAt, IsAdmId, FieldFits, Column, Le;
    RowColumns(record, row);
    FieldMeans(record[2..14], row.record.uid);
    FieldMeans(record[14..28], row.record.trackRef);
    FieldMeans(record[28..39], row.record.packRef);
    WordIs(record, 0, 2, row.track);
    Pow256Words();
    if Legal(row, channels) {
      LegalFits(row, channels);
    }
  }

  // ---------------------------------------------------------------- tables

  function TableBytes(rows: seq<Row>): (bs: seq<byte>)
    ensures |bs| == 40 * |rows|
  {
    if rows == [] then [] else TableBytes(rows[..|rows| - 1]) + RowBytes(rows[|rows| - 1])
  }

  function Records(rows: seq<Row>): (records: seq<ChnaRecord>)
    ensures |records| == |rows|
  {
    seq(|rows|, i requires 0 <= i < |rows| => rows[i].record)
  }

  ghost predicate Covers(rows: seq<Row>, track: nat) {
    exists i :: 0 <= i < |rows| && rows[i].track == track
  }

  /** Rows are legal, no two bind one UID, and every PCM track is bound. */
  ghost predicate LegalTable(rows: seq<Row>, channels: nat) {
    && 0 < |rows| < U16_LIMIT && channels < U16_LIMIT
    && (forall i :: 0 <= i < |rows| ==> Legal(rows[i], channels))
    && (forall i, j :: 0 <= i < j < |rows| ==> rows[i].record.uid != rows[j].record.uid)
    && forall track: nat :: 1 <= track <= channels ==> Covers(rows, track)
  }

  /** The payload stores both counts, the rows, and some empty rows. */
  ghost predicate Stores(payload: seq<byte>, rows: seq<Row>, channels: nat, spare: nat) {
    payload == Le(channels, 2) + Le(|rows|, 2) + TableBytes(rows) + Zeros(40 * spare)
  }

  function RowSlice(bs: seq<byte>, i: nat): (row: seq<byte>)
    requires 40 * i + 40 <= |bs|
    ensures |row| == 40
  {
    bs[40 * i..40 * i + 40]
  }

  lemma TableStep(rows: seq<Row>)
    ensures rows == [] ==> TableBytes(rows) == []
    ensures rows != [] ==> TableBytes(rows) == TableBytes(rows[..|rows| - 1]) + RowBytes(rows[|rows| - 1])
  {
    hide RowBytes;
  }

  lemma SliceOfJoin(front: seq<byte>, last: seq<byte>, i: nat)
    requires |last| == 40 && |front| % 40 == 0 && 40 * i + 40 <= |front| + 40
    ensures 40 * i == |front| ==> RowSlice(front + last, i) == last
    ensures 40 * i + 40 <= |front| ==> RowSlice(front + last, i) == RowSlice(front, i)
  {
  }

  lemma {:induction false} RowAt(rows: seq<Row>, i: nat)
    requires i < |rows|
    ensures RowSlice(TableBytes(rows), i) == RowBytes(rows[i])
  {
    hide RowBytes, TableBytes, RowSlice;
    TableStep(rows);
    var n := |rows| - 1;
    SliceOfJoin(TableBytes(rows[..n]), RowBytes(rows[n]), i);
    if i < n {
      RowAt(rows[..n], i);
    }
  }

  lemma {:induction false} RowsJoin(bs: seq<byte>, rows: seq<Row>)
    requires |bs| == 40 * |rows| && forall i :: 0 <= i < |rows| ==> RowSlice(bs, i) == RowBytes(rows[i])
    ensures bs == TableBytes(rows)
  {
    hide RowBytes, TableBytes, RowSlice;
    TableStep(rows);
    if rows != [] {
      var n := |rows| - 1;
      var front := bs[..40 * n];
      LastSlice(bs, n);
      forall i | 0 <= i < n
        ensures RowSlice(front, i) == RowBytes(rows[..n][i])
      {
        SliceOfJoin(front, RowSlice(bs, n), i);
        assert rows[..n][i] == rows[i];
      }
      RowsJoin(front, rows[..n]);
    }
  }

  lemma LastSlice(bs: seq<byte>, n: nat)
    requires |bs| == 40 * (n + 1)
    ensures bs == bs[..40 * n] + RowSlice(bs, n)
  {
  }

  lemma RecordSlice(payload: seq<byte>, n: nat, i: nat)
    requires 4 + 40 * n <= |payload| && i < n
    ensures RecordAt(payload, i) == RowSlice(payload[4..4 + 40 * n], i)
  {
    SliceOfSlice(payload, 4, 4 + 40 * n, 40 * i, 40 * i + 40);
  }

  lemma PayloadParts(payload: seq<byte>, rows: seq<Row>, channels: nat, spare: nat)
    requires |payload| == 4 + 40 * |rows| + 40 * spare
    ensures Stores(payload, rows, channels, spare) <==>
      && payload[0..2] == Le(channels, 2) && payload[2..4] == Le(|rows|, 2)
      && payload[4..4 + 40 * |rows|] == TableBytes(rows) && payload[4 + 40 * |rows|..] == Zeros(40 * spare)
  {
    hide Le, TableBytes;
    var end := 4 + 40 * |rows|;
    var bytes := Le(channels, 2) + Le(|rows|, 2) + TableBytes(rows) + Zeros(40 * spare);
    assert bytes[0..2] == Le(channels, 2) && bytes[2..4] == Le(|rows|, 2);
    assert bytes[4..end] == TableBytes(rows) && bytes[end..] == Zeros(40 * spare);
    assert payload == payload[0..2] + payload[2..4] + payload[4..end] + payload[end..];
  }

  lemma RowsMean(payload: seq<byte>, rows: seq<Row>)
    requires 4 + 40 * |rows| <= |payload|
    ensures payload[4..4 + 40 * |rows|] == TableBytes(rows) <==>
      forall i :: 0 <= i < |rows| ==> RecordAt(payload, i) == RowBytes(rows[i])
  {
    hide TableBytes, RowBytes, RecordAt, RowSlice;
    var bs := payload[4..4 + 40 * |rows|];
    forall i | 0 <= i < |rows|
      ensures RecordAt(payload, i) == RowSlice(bs, i)
    {
      RecordSlice(payload, |rows|, i);
    }
    if bs == TableBytes(rows) {
      forall i | 0 <= i < |rows|
        ensures RecordAt(payload, i) == RowBytes(rows[i])
      {
        RowAt(rows, i);
      }
    } else if forall i :: 0 <= i < |rows| ==> RecordAt(payload, i) == RowBytes(rows[i]) {
      RowsJoin(bs, rows);
    }
  }

  ghost predicate AllRead(payload: seq<byte>, channels: nat, rows: seq<Row>)
    requires 4 + 40 * |rows| <= |payload|
  {
    forall i :: 0 <= i < |rows| ==> RowReads(RecordAt(payload, i), channels, rows[i])
  }

  lemma AllReadMeans(payload: seq<byte>, channels: nat, rows: seq<Row>)
    requires 4 + 40 * |rows| <= |payload|
    ensures AllRead(payload, channels, rows) <==>
      (forall i :: 0 <= i < |rows| ==> Legal(rows[i], channels)) && payload[4..4 + 40 * |rows|] == TableBytes(rows)
  {
    hide TableBytes, RowBytes, RowReads, Legal, RecordAt;
    RowsMean(payload, rows);
    forall i | 0 <= i < |rows|
      ensures RowReads(RecordAt(payload, i), channels, rows[i]) <==>
        Legal(rows[i], channels) && RecordAt(payload, i) == RowBytes(rows[i])
    {
      RowMeans(RecordAt(payload, i), channels, rows[i]);
    }
  }

  /** The rows a legal payload reads as. */
  lemma RowsOf(payload: seq<byte>, channels: nat, records: seq<ChnaRecord>) returns (rows: seq<Row>)
    requires ChnaOf(payload, channels, records)
    ensures Records(rows) == records && 4 + 40 * |rows| <= |payload| && AllRead(payload, channels, rows)
    ensures forall track :: 1 <= track <= channels ==> Covers(rows, track)
  {
    hide WordAt, RecordOk, RecordOf, HeaderOk;
    var n := |records|;
    rows := seq(n, i requires 0 <= i < n => Row(TrackOf(payload, n, i), records[i]));
    forall track | 1 <= track <= channels
      ensures Covers(rows, track)
    {
      assert Referenced(payload, n, track);
      var i :| 0 <= i < n && TrackOf(payload, n, i) == track;
      assert rows[i].track == track;
    }
  }

  lemma HeadMeans(payload: seq<byte>, channels: nat, count: nat)
    requires |payload| >= 4 && count > 0
    ensures HeaderOk(payload, channels) && WordAt(payload, 2, 2) == count <==>
      && channels < U16_LIMIT && count < U16_LIMIT
      && payload[0..2] == Le(channels, 2) && payload[2..4] == Le(count, 2)
      && exists spare: nat :: |payload| == 4 + 40 * count + 40 * spare
  {
    WordIs(payload, 0, 2, channels);
    WordIs(payload, 2, 2, count);
    Pow256Words();
    hide Le, WordAt;
    if (|payload| - 4) % 40 == 0 && 4 + 40 * count <= |payload| {
      var spare: nat := (|payload| - 4) / 40 - count;
      assert |payload| == 4 + 40 * count + 40 * spare;
    }
  }

  lemma ZerosMean(bs: seq<byte>)
    ensures bs == Zeros(|bs|) <==> forall i :: 0 <= i < |bs| ==> bs[i] == 0
  {
  }

  lemma RestIsZero(payload: seq<byte>, end: nat)
    requires end <= |payload|
    ensures payload[end..] == Zeros(|payload| - end) <==> forall i :: end <= i < |payload| ==> payload[i] == 0
  {
    ZerosMean(payload[end..]);
    hide Zeros;
    assert forall i :: end <= i < |payload| ==> payload[i] == payload[end..][i - end];
  }

  /** Every legal payload is a stored legal table. */
  lemma LegalIsStored(payload: seq<byte>, channels: nat, records: seq<ChnaRecord>)
    requires ChnaOf(payload, channels, records)
    ensures exists rows, spare: nat ::
      Records(rows) == records && LegalTable(rows, channels) && Stores(payload, rows, channels, spare)
  {
    hide *;
    var rows := RowsOf(payload, channels, records);
    ChnaMeans(payload, channels, records);
    UidsDiffer(payload, channels, records, rows);
    CountIsPositive(payload, channels);
    HeadMeans(payload, channels, |rows|);
    var spare: nat :| |payload| == 4 + 40 * |rows| + 40 * spare;
    AllReadMeans(payload, channels, rows);
    Sizes();
    RestIsZero(payload, 4 + 40 * |rows|);
    PayloadParts(payload, rows, channels, spare);
    TableFrom(rows, channels);
  }

  lemma Sizes()
    ensures RECORD_SIZE == 40
  {
  }

  lemma TableFrom(rows: seq<Row>, channels: nat)
    requires 0 < |rows| < U16_LIMIT && channels < U16_LIMIT
    requires forall i :: 0 <= i < |rows| ==> Legal(rows[i], channels)
    requires forall i, j :: 0 <= i < j < |rows| ==> rows[i].record.uid != rows[j].record.uid
    requires forall track: nat :: 1 <= track <= channels ==> Covers(rows, track)
    ensures LegalTable(rows, channels)
  {
    hide Legal, Covers;
  }

  lemma CountIsPositive(payload: seq<byte>, channels: nat)
    requires HeaderOk(payload, channels)
    ensures |payload| >= 4 && WordAt(payload, 2, 2) > 0
  {
    hide WordAt;
  }

  lemma UidsDiffer(payload: seq<byte>, channels: nat, records: seq<ChnaRecord>, rows: seq<Row>)
    requires ChnaOf(payload, channels, records) && Records(rows) == records
    ensures forall i, j :: 0 <= i < j < |rows| ==> rows[i].record.uid != rows[j].record.uid
  {
    hide WordAt, RecordOk, RecordOf, HeaderOk, Referenced;
    assert forall i :: 0 <= i < |rows| ==> rows[i].record == records[i];
  }

  /** Every stored legal table is a legal payload. */
  lemma StoredIsLegal(payload: seq<byte>, channels: nat, rows: seq<Row>, spare: nat)
    requires LegalTable(rows, channels) && Stores(payload, rows, channels, spare)
    ensures ChnaOf(payload, channels, Records(rows))
  {
    hide WordAt, HeaderOk, TableBytes, Legal, AllRead, Le, Zeros;
    assert |payload| == 4 + 40 * |rows| + 40 * spare;
    PayloadParts(payload, rows, channels, spare);
    HeadMeans(payload, channels, |rows|);
    AllReadMeans(payload, channels, rows);
    RestIsZero(payload, 4 + 40 * |rows|);
    TableReads(payload, channels, rows);
    hide Stores, LegalTable;
    ChnaFrom(payload, channels, Records(rows));
  }

  lemma TableReads(payload: seq<byte>, channels: nat, rows: seq<Row>)
    requires 4 + 40 * |rows| <= |payload| && AllRead(payload, channels, rows) && LegalTable(rows, channels)
    ensures Reads(payload, channels, Records(rows))
    ensures forall t :: 1 <= t <= channels ==> Referenced(payload, |rows|, t)
  {
    hide WordAt, RecordOk, RecordOf, Legal;
    forall i | 0 <= i < |rows|
      ensures RecordOk(RecordAt(payload, i), channels) && TrackOf(payload, |rows|, i) == rows[i].track
      ensures Records(rows)[i] == RecordOf(RecordAt(payload, i), channels)
    {
      assert RowReads(RecordAt(payload, i), channels, rows[i]);
    }
    forall t | 1 <= t <= channels
      ensures Referenced(payload, |rows|, t)
    {
      assert Covers(rows, t);
      var i :| 0 <= i < |rows| && rows[i].track == t;
      assert TrackOf(payload, |rows|, i) == t;
    }
  }

  /** The legal payloads are exactly the stored legal tables. */
  lemma PayloadLanguage(payload: seq<byte>, channels: nat, records: seq<ChnaRecord>)
    ensures ChnaOf(payload, channels, records) <==> exists rows, spare: nat ::
      Records(rows) == records && LegalTable(rows, channels) && Stores(payload, rows, channels, spare)
  {
    hide *;
    if ChnaOf(payload, channels, records) {
      LegalIsStored(payload, channels, records);
    }
    if rows, spare: nat :|
      Records(rows) == records && LegalTable(rows, channels) && Stores(payload, rows, channels, spare) {
      StoredIsLegal(payload, channels, rows, spare);
    }
  }
}
