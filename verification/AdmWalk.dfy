/** The chunk walk of the validator: a cursor, a size directory and one inventory of what was seen. */
module AdmWalk {
  import opened Wrappers
  import opened Bytes
  import opened AdmErrors
  import opened AdmContainer
  import opened AdmFile

  /** Reads the size directory; reserved identifiers may not be listed. */
  method ParseDs64(payload: seq<byte>) returns (r: Result<Ds64, AdmError>)
    ensures r.Ok? <==> Ds64Ok(payload)
    ensures r.Ok? ==> r.value == Ds64Of(payload)
  {
    hide WordAt;
    if |payload| < 28 {
      return Err(InvalidAdmBwf);
    }
    var tableLen := WordAt(payload, 24, 4);
    if |payload| != 28 + 12 * tableLen {
      return Err(InvalidAdmBwf);
    }
    var table: seq<TableEntry> := [];
    for index := 0 to tableLen
      invariant |table| == index
      invariant forall k :: 0 <= k < index ==>
        table[k] == EntryAt(payload, k) && table[k].id != DATA && table[k].id != DS64
    {
      var entry := EntryAt(payload, index);
      if entry.id == DATA || entry.id == DS64 {
        return Err(InvalidAdmBwf);
      }
      table := table + [entry];
    }
    assert table == Ds64Of(payload).table;
    return Ok(Ds64(WordAt(payload, 0, 8), WordAt(payload, 8, 8), WordAt(payload, 16, 8), table));
  }

  // ---------------------------------------------------------------- first unused entry

  ghost predicate TakenBefore(spans: seq<Span>, k: nat, e: nat)
    requires k <= |spans|
  {
    exists i :: 0 <= i < k && spans[i].entry == Some(e)
  }

  lemma TakenIsTakenBefore(spans: seq<Span>, e: nat)
    ensures Taken(spans, e) <==> TakenBefore(spans, |spans|, e)
  {
  }

  /** `e` is the first entry for `id` that the spans before `k` left unused. */
  ghost predicate FirstUnused(table: seq<TableEntry>, spans: seq<Span>, k: nat, id: FourCc, e: nat)
    requires k <= |spans|
  {
    && e < |table| && table[e].id == id && !TakenBefore(spans, k, e)
    && forall d :: 0 <= d < e && table[d].id == id ==> TakenBefore(spans, k, d)
  }

  ghost predicate GreedyAt(table: seq<TableEntry>, spans: seq<Span>, k: nat)
    requires k < |spans|
  {
    spans[k].entry.Some? ==> FirstUnused(table, spans, k, spans[k].id, spans[k].entry.value)
  }

  function Table(directory: Option<Ds64>): seq<TableEntry> {
    if directory.Some? then directory.value.table else []
  }

  /** Every sentinel chunk took the first entry left for its identifier. */
  ghost predicate Greedy(directory: Option<Ds64>, spans: seq<Span>) {
    forall k :: 0 <= k < |spans| ==> GreedyAt(Table(directory), spans, k)
  }

  ghost predicate AllTaken(directory: Option<Ds64>, spans: seq<Span>) {
    forall e :: 0 <= e < |Table(directory)| ==> TakenBefore(spans, |spans|, e)
  }

  /** The chunk structure the walk accepts. */
  ghost predicate Walked(file: seq<byte>, kind: Kind, spans: seq<Span>) {
    && Chain(file, kind, spans) && EndOf(spans) == |file|
    && FirstChunkOk(kind, spans)
    && Corresponds(Directory(file, kind, spans), spans)
  }

  lemma EntriesComeFromTheDirectory(file: seq<byte>, kind: Kind, spans: seq<Span>, k: nat)
    requires Chain(file, kind, spans) && k < |spans| && spans[k].entry.Some?
    ensures k > 0 && Directory(file, kind, spans).Some?
    ensures spans[k].entry.value < |Directory(file, kind, spans).value.table|
    ensures Directory(file, kind, spans).value.table[spans[k].entry.value] == TableEntry(spans[k].id, spans[k].size)
  {
    hide Directory, WithinLimit, DirectoryChunkOk, WordAt;
    ChainPrefix(file, kind, spans, k);
    DirectoryOfPrefix(file, kind, spans, k);
    hide Follows;
    FollowsSizeOk(file, kind, spans[..k], spans[k]);
  }

  lemma FollowsSizeOk(file: seq<byte>, kind: Kind, before: seq<Span>, s: Span)
    requires Follows(file, kind, before, s)
    ensures SizeOk(kind, Directory(file, kind, before), s)
  {
    hide SizeOk, Directory, WithinLimit, DirectoryChunkOk, WordAt, SpanWith;
  }

  /** Serving chunks in order with the first unused entry is a one-to-one, order-keeping assignment. */
  lemma GreedyCorresponds(file: seq<byte>, kind: Kind, spans: seq<Span>)
    requires Chain(file, kind, spans)
    requires Greedy(Directory(file, kind, spans), spans) && AllTaken(Directory(file, kind, spans), spans)
    ensures Corresponds(Directory(file, kind, spans), spans)
  {
    hide Directory, Chain;
    var directory := Directory(file, kind, spans);
    forall i, j | 0 <= i < j < |spans| && spans[i].entry.Some? && spans[j].entry.Some?
      ensures spans[i].entry != spans[j].entry
      ensures spans[i].id == spans[j].id ==> spans[i].entry.value < spans[j].entry.value
    {
      EntriesComeFromTheDirectory(file, kind, spans, i);
      EntriesComeFromTheDirectory(file, kind, spans, j);
      assert GreedyAt(Table(directory), spans, i) && GreedyAt(Table(directory), spans, j);
    }
    if directory.Some? {
      forall e | 0 <= e < |directory.value.table|
        ensures Taken(spans, e)
      {
        assert TakenBefore(spans, |spans|, e);
      }
    }
  }

  /** Conversely, any such assignment serves every chunk with its first unused entry. */
  lemma CorrespondsIsGreedy(file: seq<byte>, kind: Kind, spans: seq<Span>)
    requires Chain(file, kind, spans) && Corresponds(Directory(file, kind, spans), spans)
    ensures Greedy(Directory(file, kind, spans), spans)
  {
    hide Directory, Chain;
    var directory := Directory(file, kind, spans);
    forall k | 0 <= k < |spans|
      ensures GreedyAt(Table(directory), spans, k)
    {
      if spans[k].entry.Some? {
        EntriesComeFromTheDirectory(file, kind, spans, k);
        var table, e := directory.value.table, spans[k].entry.value;
        forall d | 0 <= d < e && table[d].id == spans[k].id
          ensures TakenBefore(spans, k, d)
        {
          assert Taken(spans, d);
          var i :| 0 <= i < |spans| && spans[i].entry == Some(d);
          EntriesComeFromTheDirectory(file, kind, spans, i);
          assert i < k;
        }
      }
    }
  }

  /** What stands at the end of some spans is determined: the file fixes identifier and declared size,
      and the directory with the entries used so far fixes the rest. */
  lemma NextIsDetermined(file: seq<byte>, kind: Kind, before: seq<Span>, a: Span, b: Span)
    requires Follows(file, kind, before, a)
    requires a.start == b.start && a.id == b.id && a.declared == b.declared
    requires SizeOk(kind, Directory(file, kind, before), b)
    requires a.entry.Some? ==> FirstUnused(Table(Directory(file, kind, before)), before, |before|, a.id, a.entry.value)
    requires b.entry.Some? ==> FirstUnused(Table(Directory(file, kind, before)), before, |before|, b.id, b.entry.value)
    ensures a == b
  {
    hide Directory, WithinLimit, DirectoryChunkOk, WordAt, SpanWith;
    FollowsSizeOk(file, kind, before, a);
    hide Follows;
  }

  // ---------------------------------------------------------------- accumulators

  /** The payload kept for an exclusive chunk, if it has been met. */
  function Held(file: seq<byte>, spans: seq<Span>, id: FourCc): Option<seq<byte>> {
    if SpanWith(spans, id).Some? then Some(ChunkBody(file, spans, id)) else None
  }

  function SizeOf(spans: seq<Span>, id: FourCc): Option<nat> {
    if SpanWith(spans, id).Some? then Some(SpanWith(spans, id).value.size) else None
  }

  function IdsOfSpans(spans: seq<Span>): (ids: seq<FourCc>)
    ensures |ids| == |spans|
  {
    seq(|spans|, i requires 0 <= i < |spans| => spans[i].id)
  }

  /** What the validator remembers of the chunks it has passed. */
  datatype Inventory = Inventory(
    chunks: seq<FourCc>, ds64: Option<Ds64>, fmt: Option<seq<byte>>, dataBytes: Option<nat>,
    axml: Option<seq<byte>>, chna: Option<seq<byte>>, dbmd: Option<seq<byte>>, junkSize: Option<nat>)

  ghost predicate Gathered(file: seq<byte>, kind: Kind, spans: seq<Span>, inv: Inventory) {
    && inv.chunks == IdsOfSpans(spans)
    && inv.ds64 == Directory(file, kind, spans)
    && inv.fmt == Held(file, spans, FMT) && inv.dataBytes == SizeOf(spans, DATA) && inv.axml == Held(file, spans, AXML)
    && inv.chna == Held(file, spans, CHNA) && inv.dbmd == Held(file, spans, DBMD)
    && (inv.junkSize.Some? <==> kind == RiffFile && spans != [] && spans[0].id == JUNK)
  }

  lemma HeldStep(file: seq<byte>, before: seq<Span>, s: Span, id: FourCc)
    requires s.End() <= |file|
    ensures Held(file, before + [s], id) == if s.id == id then Some(Body(file, s)) else Held(file, before, id)
    ensures SizeOf(before + [s], id) == if s.id == id then Some(s.size) else SizeOf(before, id)
  {
    var all := before + [s];
    assert all[..|all| - 1] == before && all[|all| - 1] == s;
  }

  lemma DirectoryStep(file: seq<byte>, kind: Kind, before: seq<Span>, s: Span)
    requires s.End() <= |file|
    ensures before != [] ==> Directory(file, kind, before + [s]) == Directory(file, kind, before)
    ensures before == [] ==> Directory(file, kind, before) == None
    ensures before == [] ==>
      Directory(file, kind, before + [s]) ==
      if kind != RiffFile && s.id == DS64 && Ds64Ok(Body(file, s)) then Some(Ds64Of(Body(file, s))) else None
  {
    hide Ds64Ok, Ds64Of, Body;
    assert (before + [s])[0] == if before == [] then s else before[0];
  }

  /** The inventory after one more chunk. */
  function Noted(file: seq<byte>, kind: Kind, inv: Inventory, s: Span): Inventory
    requires s.End() <= |file|
  {
    inv.(
      chunks := inv.chunks + [s.id],
      ds64 := if s.id == DS64 && s.start == 12 && kind != RiffFile && Ds64Ok(Body(file, s))
        then Some(Ds64Of(Body(file, s))) else inv.ds64,
      fmt := if s.id == FMT then Some(Body(file, s)) else inv.fmt,
      dataBytes := if s.id == DATA then Some(s.size) else inv.dataBytes,
      axml := if s.id == AXML then Some(Body(file, s)) else inv.axml,
      chna := if s.id == CHNA then Some(Body(file, s)) else inv.chna,
      dbmd := if s.id == DBMD then Some(Body(file, s)) else inv.dbmd,
      junkSize := if s.id == JUNK && s.start == 12 && kind == RiffFile then Some(s.size) else inv.junkSize)
  }

  lemma NotedGathers(file: seq<byte>, kind: Kind, before: seq<Span>, inv: Inventory, s: Span)
    requires Chain(file, kind, before) && Gathered(file, kind, before, inv)
    requires s.End() <= |file| && s.start == EndOf(before)
    ensures Gathered(file, kind, before + [s], Noted(file, kind, inv, s))
  {
    hide Directory, Held, SizeOf, Ds64Ok, Ds64Of, Body, Chain;
    HeldStep(file, before, s, FMT);
    HeldStep(file, before, s, DATA);
    HeldStep(file, before, s, AXML);
    HeldStep(file, before, s, CHNA);
    HeldStep(file, before, s, DBMD);
    DirectoryStep(file, kind, before, s);
    StartsAtTwelve(file, kind, before);
    assert IdsOfSpans(before + [s]) == IdsOfSpans(before) + [s.id];
    assert (before + [s])[0] == if before == [] then s else before[0];
  }

  lemma StartsAtTwelve(file: seq<byte>, kind: Kind, spans: seq<Span>)
    requires Chain(file, kind, spans)
    ensures EndOf(spans) >= 12
    ensures EndOf(spans) == 12 <==> spans == []
    ensures EndOf(spans) <= |file| || spans == []
  {
    if spans != [] {
      StartsAtTwelve(file, kind, spans[..|spans| - 1]);
    }
  }

  /** The part of `Follows` that the chunk's contents decide. */
  predicate ContentsOk(file: seq<byte>, kind: Kind, before: seq<Span>, s: Span)
    requires s.End() <= |file|
  {
    && (s.id == DS64 ==> before == [] && DirectoryChunkOk(file, kind, s))
    && (s.id == JUNK && kind == RiffFile && before == [] ==> s.size <= 64)
    && (IsExclusive(s.id) ==> SpanWith(before, s.id) == None)
    && WithinLimit(s.id, s.size)
  }

  /** Admits one chunk: the `match` on its identifier. */
  method AdmitChunk(file: seq<byte>, kind: Kind, ghost before: seq<Span>, inv: Inventory, s: Span)
      returns (r: Result<Inventory, AdmError>)
    requires |file| < U64_LIMIT
    requires Chain(file, kind, before) && Gathered(file, kind, before, inv)
    requires s.start == EndOf(before) && s.End() <= |file|
    ensures r.Ok? <==> ContentsOk(file, kind, before, s)
    ensures r.Ok? ==> Gathered(file, kind, before + [s], r.value)
  {
    hide Chain, Body, Directory, Ds64Of, Ds64Ok, EndOf, Gathered, Noted, SpanWith, PaddedSize, ContentsOk, WithinLimit,
         DirectoryChunkOk, FirstChunkOk;
    NotedGathers(file, kind, before, inv, s);
    StartsAtTwelve(file, kind, before);
    Seen(file, kind, before, inv);
    ChunkNamesDiffer();
    Notes(file, kind, inv, s);
    Contents(file, kind, before, s);
    hide JUNK, DS64, FMT, DATA, AXML, CHNA, DBMD;
    var body := Body(file, s);
    var updated := inv.(chunks := inv.chunks + [s.id]);
    if s.id == DS64 {
      if kind == RiffFile || s.start != 12 || inv.ds64.Some? || !(28 <= s.size <= 64) {
        return Err(InvalidAdmBwf);
      }
      var directory :- ParseDs64(body);
      if directory.riffSize + 8 != |file| {
        return Err(InvalidAdmBwf);
      }
      updated := updated.(ds64 := Some(directory));
    } else if s.id == JUNK && kind == RiffFile && s.start == 12 {
      if s.size > 64 {
        return Err(InvalidAdmBwf);
      }
      updated := updated.(junkSize := Some(s.size));
    } else if s.id == FMT {
      if inv.fmt.Some? || s.size > 64 {
        return Err(InvalidAdmBwf);
      }
      updated := updated.(fmt := Some(body));
    } else if s.id == DATA {
      if inv.dataBytes.Some? {
        return Err(InvalidAdmBwf);
      }
      updated := updated.(dataBytes := Some(s.size));
    } else if s.id == AXML {
      if inv.axml.Some? || s.size > MAX_AXML {
        return Err(InvalidAdmBwf);
      }
      updated := updated.(axml := Some(body));
    } else if s.id == CHNA {
      if inv.chna.Some? || s.size > MAX_CHNA {
        return Err(InvalidAdmBwf);
      }
      updated := updated.(chna := Some(body));
    } else if s.id == DBMD {
      if inv.dbmd.Some? || s.size > MAX_DBMD {
        return Err(InvalidAdmBwf);
      }
      updated := updated.(dbmd := Some(body));
    }
    return Ok(updated);
  }

  lemma Seen(file: seq<byte>, kind: Kind, before: seq<Span>, inv: Inventory)
    requires Gathered(file, kind, before, inv)
    ensures inv.fmt.Some? <==> SpanWith(before, FMT).Some?
    ensures inv.dataBytes.Some? <==> SpanWith(before, DATA).Some?
    ensures inv.axml.Some? <==> SpanWith(before, AXML).Some?
    ensures inv.chna.Some? <==> SpanWith(before, CHNA).Some?
    ensures inv.dbmd.Some? <==> SpanWith(before, DBMD).Some?
    ensures before == [] ==> inv.ds64 == None
  {
    hide ChunkBody, SpanWith;
  }

  /** `ContentsOk` by cases on the identifier. */
  lemma Contents(file: seq<byte>, kind: Kind, before: seq<Span>, s: Span)
    requires s.End() <= |file|
    ensures s.id == DS64 ==>
      (ContentsOk(file, kind, before, s) <==>
       before == [] && kind != RiffFile && s.start == 12 && 28 <= s.size <= 64
       && Ds64Ok(Body(file, s)) && Ds64Of(Body(file, s)).riffSize + 8 == |file|)
    ensures s.id == JUNK ==>
      (ContentsOk(file, kind, before, s) <==> (kind == RiffFile && before == [] ==> s.size <= 64))
    ensures s.id == FMT ==> (ContentsOk(file, kind, before, s) <==> SpanWith(before, FMT) == None && s.size <= 64)
    ensures s.id == DATA ==> (ContentsOk(file, kind, before, s) <==> SpanWith(before, DATA) == None)
    ensures s.id == AXML ==>
      (ContentsOk(file, kind, before, s) <==> SpanWith(before, AXML) == None && s.size <= MAX_AXML)
    ensures s.id == CHNA ==>
      (ContentsOk(file, kind, before, s) <==> SpanWith(before, CHNA) == None && s.size <= MAX_CHNA)
    ensures s.id == DBMD ==>
      (ContentsOk(file, kind, before, s) <==> SpanWith(before, DBMD) == None && s.size <= MAX_DBMD)
    ensures s.id != DS64 && s.id != JUNK && !IsExclusive(s.id) ==> ContentsOk(file, kind, before, s)
  {
    ChunkNamesDiffer();
    hide JUNK, DS64, FMT, DATA, AXML, CHNA, DBMD, Body, Ds64Ok, Ds64Of, SpanWith;
  }

  /** `Noted` by cases on the identifier. */
  lemma Notes(file: seq<byte>, kind: Kind, inv: Inventory, s: Span)
    requires s.End() <= |file|
    ensures s.id == DS64 && s.start == 12 && kind != RiffFile && Ds64Ok(Body(file, s)) ==>
      Noted(file, kind, inv, s) == inv.(chunks := inv.chunks + [s.id], ds64 := Some(Ds64Of(Body(file, s))))
    ensures s.id == JUNK ==>
      Noted(file, kind, inv, s) ==
      inv.(chunks := inv.chunks + [s.id],
        junkSize := if s.start == 12 && kind == RiffFile then Some(s.size) else inv.junkSize)
    ensures s.id == FMT ==> Noted(file, kind, inv, s) == inv.(chunks := inv.chunks + [s.id], fmt := Some(Body(file, s)))
    ensures s.id == DATA ==> Noted(file, kind, inv, s) == inv.(chunks := inv.chunks + [s.id], dataBytes := Some(s.size))
    ensures s.id == AXML ==>
      Noted(file, kind, inv, s) == inv.(chunks := inv.chunks + [s.id], axml := Some(Body(file, s)))
    ensures s.id == CHNA ==>
      Noted(file, kind, inv, s) == inv.(chunks := inv.chunks + [s.id], chna := Some(Body(file, s)))
    ensures s.id == DBMD ==>
      Noted(file, kind, inv, s) == inv.(chunks := inv.chunks + [s.id], dbmd := Some(Body(file, s)))
    ensures s.id != DS64 && s.id != JUNK && !IsExclusive(s.id) ==>
      Noted(file, kind, inv, s) == inv.(chunks := inv.chunks + [s.id])
  {
    ChunkNamesDiffer();
    hide JUNK, DS64, FMT, DATA, AXML, CHNA, DBMD, Body, Ds64Ok, Ds64Of;
  }

  // ---------------------------------------------------------------- sizes

  /** `used` marks the entries the spans so far have taken. */
  ghost predicate Marks(used: seq<bool>, table: seq<TableEntry>, spans: seq<Span>) {
    && |used| == |table|
    && forall e :: 0 <= e < |used| ==> (used[e] <==> TakenBefore(spans, |spans|, e))
  }

  /** Resolves a chunk's payload size: the declared one, or behind the sentinel the directory's. The
      entry returned is to be marked as used. */
  method ResolveSize(kind: Kind, ds64: Option<Ds64>, used: seq<bool>, ghost spans: seq<Span>, id: FourCc,
      ghost start: nat, declared: nat)
      returns (r: Result<(nat, Option<nat>), AdmError>)
    requires Marks(used, Table(ds64), spans)
    ensures r.Ok? ==> SizeOk(kind, ds64, Span(id, start, declared, r.value.0, r.value.1))
    ensures r.Ok? && r.value.1.Some? ==> FirstUnused(Table(ds64), spans, |spans|, id, r.value.1.value)
    ensures r.Err? ==> forall s: Span :: s.id == id && s.declared == declared && SizeOk(kind, ds64, s) ==>
      s.entry.Some? && !FirstUnused(Table(ds64), spans, |spans|, id, s.entry.value)
  {
    hide TakenBefore, DATA;
    if declared != SENTINEL {
      return Ok((declared, None));
    }
    if kind == RiffFile || ds64.None? {
      return Err(InvalidAdmBwf);
    }
    if id == DATA {
      return Ok((ds64.value.dataSize, None));
    }
    var table := ds64.value.table;
    for index := 0 to |table|
      invariant forall e :: 0 <= e < index && table[e].id == id ==> used[e]
    {
      if table[index].id == id && !used[index] {
        return Ok((table[index].size, Some(index)));
      }
    }
    return Err(InvalidAdmBwf);
  }

  // ---------------------------------------------------------------- the walk

  /** What the structure of a legal file implies behind a prefix of its spans. */
  lemma NextSpan(file: seq<byte>, kind: Kind, spans: seq<Span>, done: seq<Span>)
    requires Walked(file, kind, spans) && done <= spans && EndOf(done) < |file|
    ensures |done| < |spans|
    ensures Follows(file, kind, done, spans[|done|])
    ensures var s := spans[|done|];
      s.entry.Some? ==> FirstUnused(Table(Directory(file, kind, done)), done, |done|, s.id, s.entry.value)
  {
    hide Chain, Follows, Directory, Corresponds, FirstChunkOk;
    var n := |done|;
    assert spans[..n] == done;
    ChainPrefix(file, kind, spans, n);
    CorrespondsIsGreedy(file, kind, spans);
    assert GreedyAt(Table(Directory(file, kind, spans)), spans, n);
    if spans[n].entry.Some? {
      EntriesComeFromTheDirectory(file, kind, spans, n);
      DirectoryOfPrefix(file, kind, spans, n);
      assert forall d :: TakenBefore(spans, n, d) <==> TakenBefore(done, n, d);
    }
  }

  lemma WholeWalk(file: seq<byte>, kind: Kind, spans: seq<Span>, done: seq<Span>)
    requires Walked(file, kind, spans) && done <= spans && EndOf(done) == |file|
    ensures done == spans
  {
    hide Follows, Directory, Corresponds, FirstChunkOk, Chain;
    var n := |done|;
    if n < |spans| {
      assert spans[..n] == done;
      ChainPrefix(file, kind, spans, n);
      FollowsEnd(file, kind, done, spans[n]);
    }
  }

  /** A file has at most one chunk structure. */
  lemma StructureIsUnique(file: seq<byte>, kind: Kind, a: seq<Span>, b: seq<Span>)
    requires Walked(file, kind, a) && Walked(file, kind, b)
    ensures a == b
  {
    hide *;
    PrefixesAgree(file, kind, a, b, |a|);
    assert a[..|a|] == a;
    WalkedEnd(file, kind, a);
    WholeWalk(file, kind, b, a);
  }

  lemma WalkedEnd(file: seq<byte>, kind: Kind, spans: seq<Span>)
    requires Walked(file, kind, spans)
    ensures Chain(file, kind, spans) && EndOf(spans) == |file|
  {
  }

  lemma {:induction false} PrefixesAgree(file: seq<byte>, kind: Kind, a: seq<Span>, b: seq<Span>, k: nat)
    requires Walked(file, kind, a) && Walked(file, kind, b) && k <= |a|
    ensures a[..k] <= b
  {
    hide *;
    if k > 0 {
      PrefixesAgree(file, kind, a, b, k - 1);
      var done := a[..k - 1];
      WalkedEnd(file, kind, a);
      ChainPrefix(file, kind, a, k - 1);
      FollowsEnd(file, kind, done, a[k - 1]);
      NextSpan(file, kind, a, done);
      NextSpan(file, kind, b, done);
      FollowsEnd(file, kind, done, b[k - 1]);
      FollowsSizeOk(file, kind, done, b[k - 1]);
      NextIsDetermined(file, kind, done, a[k - 1], b[k - 1]);
      assert a[..k] == done + [a[k - 1]] && b[..k] == done + [b[k - 1]];
    }
  }

  lemma FollowsEnd(file: seq<byte>, kind: Kind, before: seq<Span>, s: Span)
    requires Follows(file, kind, before, s)
    ensures s.start == EndOf(before) && s.start + 8 <= s.End() <= |file|
    ensures s.id == file[s.start..s.start + 4] && s.declared == WordAt(file, s.start + 4, 4)
    ensures ContentsOk(file, kind, before, s)
  {
    hide SizeOk, Directory, DirectoryChunkOk, WithinLimit, SpanWith, WordAt;
  }

  lemma FollowsParts(file: seq<byte>, kind: Kind, before: seq<Span>, s: Span)
    requires s.start == EndOf(before) && s.End() <= |file|
    requires s.id == file[s.start..s.start + 4] && s.declared == WordAt(file, s.start + 4, 4)
    requires SizeOk(kind, Directory(file, kind, before), s) && ContentsOk(file, kind, before, s)
    ensures Follows(file, kind, before, s)
  {
    hide SizeOk, Directory, DirectoryChunkOk, WithinLimit, SpanWith, WordAt;
  }

  /** One accepted chunk keeps the walk's invariants. */
  lemma WalkStep(file: seq<byte>, kind: Kind, spans: seq<Span>, s: Span)
    requires Chain(file, kind, spans) && Follows(file, kind, spans, s)
    requires Greedy(Directory(file, kind, spans), spans)
    requires s.entry.Some? ==> FirstUnused(Table(Directory(file, kind, spans)), spans, |spans|, s.id, s.entry.value)
    ensures Chain(file, kind, spans + [s]) && EndOf(spans + [s]) == s.End()
    ensures Greedy(Directory(file, kind, spans + [s]), spans + [s])
  {
    hide Follows, Directory;
    var all, n := spans + [s], |spans|;
    assert all[..n] == spans && all[n] == s;
    FollowsEnd(file, kind, spans, s);
    DirectoryStep(file, kind, spans, s);
    var directory := Directory(file, kind, all);
    forall k | 0 <= k < |all|
      ensures GreedyAt(Table(directory), all, k)
    {
      if all[k].entry.Some? {
        EntriesComeFromTheDirectory(file, kind, all, k);
        assert forall d :: TakenBefore(all, k, d) <==> TakenBefore(spans, k, d);
        if k < n {
          assert GreedyAt(Table(Directory(file, kind, spans)), spans, k);
        }
      }
    }
  }

  lemma MarksStep(used: seq<bool>, table: seq<TableEntry>, spans: seq<Span>, s: Span)
    requires Marks(used, table, spans)
    ensures s.entry == None ==> Marks(used, table, spans + [s])
    ensures s.entry.Some? && s.entry.value < |used| ==> Marks(used[s.entry.value := true], table, spans + [s])
  {
    var all, n := spans + [s], |spans|;
    assert all[n] == s;
    forall e: nat
      ensures TakenBefore(all, n + 1, e) <==> s.entry == Some(e) || TakenBefore(spans, n, e)
    {
      if TakenBefore(spans, n, e) {
        var i :| 0 <= i < n && spans[i].entry == Some(e);
        assert all[i].entry == Some(e);
      }
    }
  }

  /** A directory just read has no used entry. */
  lemma FreshMarks(file: seq<byte>, kind: Kind, before: seq<Span>, s: Span)
    requires Follows(file, kind, before, s) && s.id == DS64
    ensures before == []
    ensures var next := Directory(file, kind, before + [s]);
      next.Some? && Marks(seq(|next.value.table|, _ => false), Table(next), before + [s])
  {
    FollowsSizeOk(file, kind, before, s);
    FollowsEnd(file, kind, before, s);
    hide Ds64Ok, Ds64Of, Body, Follows, WordAt;
  }

  lemma ReadyToWalk(file: seq<byte>, kind: Kind)
    ensures Chain(file, kind, []) && EndOf([]) == 12 && Directory(file, kind, []) == None
    ensures Gathered(file, kind, [], Inventory([], None, None, None, None, None, None, None))
    ensures Marks([], Table(None), []) && Greedy(None, [])
  {
  }

  /** Only one span can stand at the end of a prefix of an accepted structure. */
  lemma OnlySpan(file: seq<byte>, kind: Kind, spans: seq<Span>, s: Span)
    requires s.start == EndOf(spans) && s.start + 8 <= |file|
    requires s.id == file[s.start..s.start + 4] && s.declared == WordAt(file, s.start + 4, 4)
    requires SizeOk(kind, Directory(file, kind, spans), s)
    requires s.entry.Some? ==> FirstUnused(Table(Directory(file, kind, spans)), spans, |spans|, s.id, s.entry.value)
    ensures forall model :: Walked(file, kind, model) && spans <= model ==>
      && spans + [s] <= model
      && s.End() <= |file| && ContentsOk(file, kind, spans, s)
  {
    hide *;
    forall model | Walked(file, kind, model) && spans <= model
      ensures spans + [s] <= model
      ensures s.End() <= |file| && ContentsOk(file, kind, spans, s)
    {
      NextSpan(file, kind, model, spans);
      var next := model[|spans|];
      FollowsEnd(file, kind, spans, next);
      NextIsDetermined(file, kind, spans, next, s);
      assert model[..|spans| + 1] == spans + [s];
    }
  }

  /** No accepted structure continues where a chunk header is cut off. */
  lemma NothingFollows(file: seq<byte>, kind: Kind, spans: seq<Span>)
    requires |file| - 8 < EndOf(spans) < |file|
    ensures forall model :: Walked(file, kind, model) ==> !(spans <= model)
  {
    hide *;
    forall model | Walked(file, kind, model)
      ensures !(spans <= model)
    {
      if spans <= model {
        NextSpan(file, kind, model, spans);
        FollowsEnd(file, kind, spans, model[|spans|]);
      }
    }
  }

  /** No accepted structure continues with a chunk whose size cannot be resolved. */
  lemma NothingResolves(file: seq<byte>, kind: Kind, spans: seq<Span>, id: FourCc, declared: nat)
    requires EndOf(spans) + 8 <= |file|
    requires id == file[EndOf(spans)..EndOf(spans) + 4] && declared == WordAt(file, EndOf(spans) + 4, 4)
    requires forall s: Span :: s.id == id && s.declared == declared && SizeOk(kind, Directory(file, kind, spans), s) ==>
      s.entry.Some? && !FirstUnused(Table(Directory(file, kind, spans)), spans, |spans|, id, s.entry.value)
    ensures forall model :: Walked(file, kind, model) ==> !(spans <= model)
  {
    hide *;
    forall model | Walked(file, kind, model)
      ensures !(spans <= model)
    {
      if spans <= model {
        NextSpan(file, kind, model, spans);
        FollowsEnd(file, kind, spans, model[|spans|]);
        FollowsSizeOk(file, kind, spans, model[|spans|]);
      }
    }
  }

  lemma NothingButWhole(file: seq<byte>, kind: Kind, spans: seq<Span>)
    requires EndOf(spans) == |file|
    ensures forall model :: Walked(file, kind, model) && spans <= model ==> model == spans
  {
    hide *;
    forall model | Walked(file, kind, model) && spans <= model
      ensures model == spans
    {
      WholeWalk(file, kind, model, spans);
    }
  }

  /** The checks behind the loop. */
  method FinishWalk(file: seq<byte>, kind: Kind, ghost spans: seq<Span>, inv: Inventory, used: seq<bool>)
      returns (ok: bool)
    requires Chain(file, kind, spans) && EndOf(spans) == |file|
    requires Greedy(Directory(file, kind, spans), spans) && Gathered(file, kind, spans, inv)
    requires Marks(used, Table(inv.ds64), spans)
    ensures ok <==> Walked(file, kind, spans)
  {
    hide Chain, Greedy, Held, SizeOf, Corresponds, EndOf;
    ChunkNamesDiffer();
    hide JUNK, DS64, FMT, DATA, AXML, CHNA, DBMD;
    FirstIsDirectory(file, kind, spans);
    if kind != RiffFile && (inv.ds64.None? || inv.chunks == [] || inv.chunks[0] != DS64) {
      return false;
    }
    if exists e | 0 <= e < |used| :: !used[e] {
      EntryLeft(file, kind, spans, used);
      return false;
    }
    if kind == RiffFile && (inv.junkSize.None? || inv.chunks == [] || inv.chunks[0] != JUNK) {
      return false;
    }
    assert AllTaken(Directory(file, kind, spans), spans);
    GreedyCorresponds(file, kind, spans);
    return true;
  }

  lemma FirstIsDirectory(file: seq<byte>, kind: Kind, spans: seq<Span>)
    requires Chain(file, kind, spans)
    ensures spans != [] && spans[0].id == DS64 ==> kind != RiffFile && Directory(file, kind, spans).Some?
  {
    if spans != [] && spans[0].id == DS64 {
      ChainPrefix(file, kind, spans, 0);
      FollowsEnd(file, kind, spans[..0], spans[0]);
    }
    hide Ds64Ok, Ds64Of, Body, Follows, WordAt;
  }

  lemma EntryLeft(file: seq<byte>, kind: Kind, spans: seq<Span>, used: seq<bool>)
    requires Marks(used, Table(Directory(file, kind, spans)), spans) && exists e :: 0 <= e < |used| && !used[e]
    ensures !Corresponds(Directory(file, kind, spans), spans)
  {
    hide Directory;
    var e :| 0 <= e < |used| && !used[e];
    assert !TakenBefore(spans, |spans|, e);
    TakenIsTakenBefore(spans, e);
  }

  lemma EndIs(s: Span)
    ensures s.End() == s.start + 8 + s.size + s.size % 2
  {
  }

  /** Reads the chunks behind the preamble. It succeeds exactly on the structures of `Walked`, and its
      inventory is that of the one such structure. */
  method ReadChunks(file: seq<byte>, kind: Kind) returns (r: Result<Inventory, AdmError>, ghost spans: seq<Span>)
    requires 12 <= |file| < U64_LIMIT
    ensures r.Ok? <==> exists model :: Walked(file, kind, model)
    ensures forall model :: Walked(file, kind, model) ==>
      r.Ok? && Gathered(file, kind, model, r.value) && model == spans
  {
    hide *;
    spans := [];
    var cursor := 12;
    var inv := Inventory([], None, None, None, None, None, None, None);
    var used: seq<bool> := [];
    ReadyToWalk(file, kind);
    while cursor < |file|
      invariant 12 <= cursor <= |file| && cursor == EndOf(spans)
      invariant Chain(file, kind, spans) && Greedy(Directory(file, kind, spans), spans)
      invariant Gathered(file, kind, spans, inv) && inv.ds64 == Directory(file, kind, spans)
      invariant Marks(used, Table(inv.ds64), spans)
      invariant forall model :: Walked(file, kind, model) ==> spans <= model
      decreases |file| - cursor
    {
      if cursor + 8 > |file| {
        NothingFollows(file, kind, spans);
        return Err(InvalidAdmBwf), spans;
      }
      var id: FourCc := file[cursor..cursor + 4];
      var declared := WordAt(file, cursor + 4, 4);
      var resolved := ResolveSize(kind, inv.ds64, used, spans, id, cursor, declared);
      if resolved.Err? {
        NothingResolves(file, kind, spans, id, declared);
        return Err(resolved.error), spans;
      }
      var (size, entry) := resolved.value;
      var s := Span(id, cursor, declared, size, entry);
      OnlySpan(file, kind, spans, s);
      EndIs(s);
      if cursor + 8 + size >= U64_LIMIT || cursor + 8 + size + size % 2 >= U64_LIMIT {
        return Err(SizeOverflow), spans;
      }
      var paddedEnd := cursor + 8 + size + size % 2;
      if paddedEnd > |file| {
        return Err(InvalidAdmBwf), spans;
      }
      var admitted := AdmitChunk(file, kind, spans, inv, s);
      if admitted.Err? {
        return Err(admitted.error), spans;
      }
      FollowsParts(file, kind, spans, s);
      WalkStep(file, kind, spans, s);
      used := MarkUsed(file, kind, spans, s, used, admitted.value);
      spans := spans + [s];
      inv := admitted.value;
      cursor := paddedEnd;
    }
    NothingButWhole(file, kind, spans);
    var ok := FinishWalk(file, kind, spans, inv, used);
    r := if ok then Ok(inv) else Err(InvalidAdmBwf);
  }

  /** Marks the entry the chunk took, or makes room for the entries of a directory just read. */
  method MarkUsed(file: seq<byte>, kind: Kind, ghost spans: seq<Span>, s: Span, used: seq<bool>, inv: Inventory)
      returns (marks: seq<bool>)
    requires Follows(file, kind, spans, s) && Marks(used, Table(Directory(file, kind, spans)), spans)
    requires Gathered(file, kind, spans + [s], inv)
    ensures inv.ds64 == Directory(file, kind, spans + [s])
    ensures Marks(marks, Table(inv.ds64), spans + [s])
  {
    hide *;
    GatheredDirectory(file, kind, spans + [s], inv);
    NextMarks(file, kind, spans, s, used);
    if s.id == DS64 {
      return seq(|inv.ds64.value.table|, _ => false);
    }
    return if s.entry.Some? then used[s.entry.value := true] else used;
  }

  lemma GatheredDirectory(file: seq<byte>, kind: Kind, spans: seq<Span>, inv: Inventory)
    requires Gathered(file, kind, spans, inv)
    ensures inv.ds64 == Directory(file, kind, spans)
  {
    hide Directory, Held, SizeOf;
  }

  lemma NextMarks(file: seq<byte>, kind: Kind, before: seq<Span>, s: Span, used: seq<bool>)
    requires Follows(file, kind, before, s) && Marks(used, Table(Directory(file, kind, before)), before)
    ensures var next, all := Directory(file, kind, before + [s]), before + [s];
      if s.id == DS64 then next.Some? && Marks(seq(|next.value.table|, _ => false), Table(next), all)
      else if s.entry.Some? then s.entry.value < |used| && Marks(used[s.entry.value := true], Table(next), all)
      else Marks(used, Table(next), all)
  {
    hide Marks, Follows, Directory;
    FollowsSizeOk(file, kind, before, s);
    FollowsEnd(file, kind, before, s);
    hide DirectoryChunkOk, WithinLimit, SpanWith;
    DirectoryStep(file, kind, before, s);
    MarksStep(used, Table(Directory(file, kind, before)), before, s);
    MarksLength(used, Table(Directory(file, kind, before)), before);
    if s.id == DS64 {
      FreshMarks(file, kind, before, s);
    }
  }

  lemma MarksLength(used: seq<bool>, table: seq<TableEntry>, spans: seq<Span>)
    requires Marks(used, table, spans)
    ensures |used| == |table|
  {
  }
}
