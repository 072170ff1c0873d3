/** The size directory and the names in a file header, read back from the bytes a writer would store. */
module AdmDirectory {
  import opened Wrappers
  import opened Bytes
  import opened Text
  import opened AdmContainer
  import opened AdmFile

  // ---------------------------------------------------------------- names

  lemma NamesAreAscii()
    ensures RIFF == AsciiBytes("RIFF") && RF64 == AsciiBytes("RF64") && BW64 == AsciiBytes("BW64")
    ensures WAVE == AsciiBytes("WAVE") && JUNK == AsciiBytes("JUNK") && DS64 == AsciiBytes("ds64")
    ensures FMT == AsciiBytes("fmt ") && DATA == AsciiBytes("data") && AXML == AsciiBytes("axml")
    ensures CHNA == AsciiBytes("chna") && DBMD == AsciiBytes("dbmd")
  {
  }

  /** A file is of the kind its first four characters name. */
  lemma KindsAreNamed(signature: seq<byte>)
    ensures KindOf(signature) == Some(RiffFile) <==> signature == AsciiBytes("RIFF")
    ensures KindOf(signature) == Some(Rf64File) <==> signature == AsciiBytes("RF64")
    ensures KindOf(signature) == Some(Bw64File) <==> signature == AsciiBytes("BW64")
  {
    NamesAreAscii();
    ChunkNamesDiffer();
    hide AsciiBytes;
  }

  // ---------------------------------------------------------------- the directory

  function EntryBytes(e: TableEntry): (bs: seq<byte>)
    ensures |bs| == 12
  {
    e.id + Le(e.size, 8)
  }

  function TableBytes(table: seq<TableEntry>): (bs: seq<byte>)
    ensures |bs| == 12 * |table|
  {
    if table == [] then [] else TableBytes(table[..|table| - 1]) + EntryBytes(table[|table| - 1])
  }

  function DirectoryBytes(d: Ds64): (bs: seq<byte>)
    ensures |bs| == 28 + 12 * |d.table|
  {
    Le(d.riffSize, 8) + Le(d.dataSize, 8) + Le(d.sampleCount, 8) + Le(|d.table|, 4) + TableBytes(d.table)
  }

  predicate EntryFits(e: TableEntry) {
    e.size < U64_LIMIT && e.id != DATA && e.id != DS64
  }

  /** The sizes fit their words, and no entry has a reserved name. */
  predicate DirectoryFits(d: Ds64) {
    && d.riffSize < U64_LIMIT && d.dataSize < U64_LIMIT && d.sampleCount < U64_LIMIT && |d.table| < U32_LIMIT
    && forall i :: 0 <= i < |d.table| ==> EntryFits(d.table[i])
  }

  /** The bytes of entry `i`. */
  function EntrySlice(payload: seq<byte>, i: nat): seq<byte>
    requires 40 + 12 * i <= |payload|
  {
    payload[28 + 12 * i..40 + 12 * i]
  }

  lemma EntryReads(payload: seq<byte>, i: nat, e: TableEntry)
    requires 40 + 12 * i <= |payload|
    ensures EntryAt(payload, i) == e && EntryFits(e) <==> EntryFits(e) && EntrySlice(payload, i) == EntryBytes(e)
  {
    var from := 28 + 12 * i;
    WordIs(payload, from + 4, 8, e.size);
    Pow256Words();
    hide Le, WordAt;
    var slice := payload[from..from + 12];
    assert slice == payload[from..from + 4] + payload[from + 4..from + 12];
    assert EntryBytes(e)[..4] == e.id && EntryBytes(e)[4..] == Le(e.size, 8);
    assert slice[..4] == payload[from..from + 4] && slice[4..] == payload[from + 4..from + 12];
  }

  lemma {:induction false} TableSlice(table: seq<TableEntry>, i: nat)
    requires i < |table|
    ensures TableBytes(table)[12 * i..12 * i + 12] == EntryBytes(table[i])
  {
    hide EntryBytes;
    var n := |table| - 1;
    if i < n {
      TableSlice(table[..n], i);
    }
  }

  lemma {:induction false} SlicesJoin(payload: seq<byte>, table: seq<TableEntry>)
    requires 28 + 12 * |table| <= |payload|
    requires forall i :: 0 <= i < |table| ==> EntrySlice(payload, i) == EntryBytes(table[i])
    ensures payload[28..28 + 12 * |table|] == TableBytes(table)
  {
    hide EntryBytes;
    if table != [] {
      var n := |table| - 1;
      SlicesJoin(payload, table[..n]);
      assert EntrySlice(payload, n) == EntryBytes(table[n]);
      assert payload[28..28 + 12 * (n + 1)] == payload[28..28 + 12 * n] + payload[28 + 12 * n..40 + 12 * n];
    }
  }

  lemma TableMeans(payload: seq<byte>, table: seq<TableEntry>)
    requires |payload| == 28 + 12 * |table|
    ensures payload[28..] == TableBytes(table) <==>
      forall i :: 0 <= i < |table| ==> EntrySlice(payload, i) == EntryBytes(table[i])
  {
    hide TableBytes, EntryBytes;
    if payload[28..] == TableBytes(table) {
      forall i | 0 <= i < |table|
        ensures EntrySlice(payload, i) == EntryBytes(table[i])
      {
        TableSlice(table, i);
        SliceOfSlice(payload, 28, |payload|, 12 * i, 12 * i + 12);
      }
    }
    if forall i :: 0 <= i < |table| ==> EntrySlice(payload, i) == EntryBytes(table[i]) {
      SlicesJoin(payload, table);
    }
  }

  lemma HeadMeans(payload: seq<byte>, d: Ds64)
    requires |payload| == 28 + 12 * |d.table|
    ensures payload == DirectoryBytes(d) <==>
      && payload[0..8] == Le(d.riffSize, 8) && payload[8..16] == Le(d.dataSize, 8)
      && payload[16..24] == Le(d.sampleCount, 8) && payload[24..28] == Le(|d.table|, 4)
      && payload[28..] == TableBytes(d.table)
  {
    hide Le, TableBytes;
    var bytes := DirectoryBytes(d);
    assert bytes[0..8] == Le(d.riffSize, 8) && bytes[8..16] == Le(d.dataSize, 8);
    assert bytes[16..24] == Le(d.sampleCount, 8) && bytes[24..28] == Le(|d.table|, 4);
    assert bytes[28..] == TableBytes(d.table);
    assert payload == payload[0..8] + payload[8..16] + payload[16..24] + payload[24..28] + payload[28..];
  }

  ghost predicate HeadReads(payload: seq<byte>, d: Ds64)
    requires |payload| >= 28
  {
    && WordAt(payload, 0, 8) == d.riffSize && WordAt(payload, 8, 8) == d.dataSize
    && WordAt(payload, 16, 8) == d.sampleCount && WordAt(payload, 24, 4) == |d.table|
  }

  lemma HeadWords(payload: seq<byte>, d: Ds64)
    requires |payload| >= 28
    ensures HeadReads(payload, d) <==>
      && d.riffSize < U64_LIMIT && d.dataSize < U64_LIMIT && d.sampleCount < U64_LIMIT && |d.table| < U32_LIMIT
      && payload[0..8] == Le(d.riffSize, 8) && payload[8..16] == Le(d.dataSize, 8)
      && payload[16..24] == Le(d.sampleCount, 8) && payload[24..28] == Le(|d.table|, 4)
  {
    WordIs(payload, 0, 8, d.riffSize);
    WordIs(payload, 8, 8, d.dataSize);
    WordIs(payload, 16, 8, d.sampleCount);
    WordIs(payload, 24, 4, |d.table|);
    Pow256Words();
    hide Le, WordAt;
  }

  ghost predicate TableReads(payload: seq<byte>, table: seq<TableEntry>)
    requires |payload| == 28 + 12 * |table|
  {
    forall i :: 0 <= i < |table| ==> EntryAt(payload, i) == table[i] && table[i].id != DATA && table[i].id != DS64
  }

  lemma TableWords(payload: seq<byte>, table: seq<TableEntry>)
    requires |payload| == 28 + 12 * |table|
    ensures TableReads(payload, table) <==>
      (forall i :: 0 <= i < |table| ==> EntryFits(table[i])) && payload[28..] == TableBytes(table)
  {
    hide TableBytes, EntryBytes, EntryAt, EntrySlice, DATA, DS64;
    TableMeans(payload, table);
    forall i | 0 <= i < |table|
      ensures EntryAt(payload, i) == table[i] && EntryFits(table[i]) <==>
        EntryFits(table[i]) && EntrySlice(payload, i) == EntryBytes(table[i])
      ensures EntryAt(payload, i).size < U64_LIMIT
    {
      EntryReads(payload, i, table[i]);
      EntrySize(payload, i);
    }
  }

  lemma EntrySize(payload: seq<byte>, i: nat)
    requires 40 + 12 * i <= |payload|
    ensures EntryAt(payload, i).size < U64_LIMIT
  {
    Pow256Words();
  }

  lemma LanguageParts(payload: seq<byte>, d: Ds64)
    ensures Ds64Ok(payload) && Ds64Of(payload) == d <==>
      |payload| == 28 + 12 * |d.table| && HeadReads(payload, d) && TableReads(payload, d.table)
  {
    hide WordAt, EntryAt, DATA, DS64;
  }

  /** A payload reads as a directory exactly when it is what a writer of that directory would store. */
  lemma DirectoryLanguage(payload: seq<byte>, d: Ds64)
    ensures Ds64Ok(payload) && Ds64Of(payload) == d <==> DirectoryFits(d) && payload == DirectoryBytes(d)
  {
    hide Ds64Ok, Ds64Of, HeadReads, TableReads, Le, TableBytes, EntryFits, DirectoryBytes;
    LanguageParts(payload, d);
    if |payload| == 28 + 12 * |d.table| {
      HeadWords(payload, d);
      HeadMeans(payload, d);
      TableWords(payload, d.table);
    }
  }
}
