/** The loops that decide the document checks: identifier collection, contiguity, rules and links. */
module AdmXmlValidator {
  import opened Wrappers
  import opened Bytes
  import opened Text
  import opened AdmErrors
  import opened AdmIds
  import opened AdmDocument
  import opened AdmDocumentCheck
  import opened AdmDocumentSections
  import opened AdmSearches
  import opened AdmConformance
  import opened AdmConformanceTheorem
  import opened Chna

  // ---------------------------------------------------------------- identifiers

  /** The order in which identifier families are collected. */
  const FAMILIES: seq<IdKind> := [Programme, Content, Object, Pack, Channel, Block, Stream, TrackFormat, TrackUid]

  /** Collects one family's identifiers; `all` holds those of the families before it. */
  method CollectAdmIds(scope: Element, kind: IdKind, all: set<string>)
      returns (r: Result<(set<string>, set<string>), AdmError>)
    ensures r.Ok? <==> DistinctIds(Members(scope, kind), kind) && all !! IdsOf(scope, kind)
    ensures r.Ok? ==> r.value == (IdsOf(scope, kind), all + IdsOf(scope, kind)) && |r.value.0| == |Members(scope, kind)|
  {
    hide Members, IsAdmId, IdSet, DistinctIds;
    var elements := Members(scope, kind);
    var ids: set<string> := {};
    var seen := all;
    NoIds(elements[..0], kind);
    for i := 0 to |elements|
      invariant ids == IdSet(elements[..i]) && |ids| == i && seen == all + ids && all !! ids
      invariant DistinctIds(elements[..i], kind)
    {
      IdStep(elements, i, kind);
      var id := elements[i].Attr(Id);
      if id.None? || !IsAdmId(id.value, kind) {
        return Err(InvalidAdmBwf);
      }
      if id.value in ids || id.value in seen {
        return Err(InvalidAdmBwf);
      }
      ids := ids + {id.value};
      seen := seen + {id.value};
    }
    assert elements[..|elements|] == elements;
    return Ok((ids, seen));
  }

  lemma NoIds(es: seq<Element>, kind: IdKind)
    requires es == []
    ensures IdSet(es) == {} && DistinctIds(es, kind)
  {
  }

  /** What the next element means for the identifiers collected so far. */
  lemma IdStep(es: seq<Element>, i: nat, kind: IdKind)
    requires i < |es| && DistinctIds(es[..i], kind)
    ensures !Identified(es[i], kind) ==> !DistinctIds(es, kind)
    ensures Identified(es[i], kind) ==>
      var id := es[i].Attr(Id).value;
      && IdSet(es[..i + 1]) == IdSet(es[..i]) + {id} && id in IdSet(es)
      && (id in IdSet(es[..i]) ==> !DistinctIds(es, kind))
      && (id !in IdSet(es[..i]) ==> DistinctIds(es[..i + 1], kind))
  {
    hide IsAdmId;
    if Identified(es[i], kind) {
      IdSetExtend(es, i);
      var id := es[i].Attr(Id).value;
      if id !in IdSet(es[..i]) {
        forall j | 0 <= j < i
          ensures es[j].Attr(Id) != es[i].Attr(Id)
        {
          assert es[..i][j] == es[j];
        }
        assert forall j :: 0 <= j <= i ==> es[..i + 1][j] == es[j];
        assert forall j :: 0 <= j < i ==> es[..i][j] == es[j];
      }
    }
  }

  lemma IdSetExtend(es: seq<Element>, i: nat)
    requires i < |es| && es[i].Attr(Id).Some?
    ensures IdSet(es[..i + 1]) == IdSet(es[..i]) + {es[i].Attr(Id).value}
    ensures es[i].Attr(Id).value in IdSet(es)
    ensures es[i].Attr(Id).value in IdSet(es[..i]) ==> exists j :: 0 <= j < i && es[j].Attr(Id) == es[i].Attr(Id)
  {
    forall id | id in IdSet(es[..i + 1])
      ensures id in IdSet(es[..i]) + {es[i].Attr(Id).value}
    {
      var j :| 0 <= j < i + 1 && es[..i + 1][j].Attr(Id) == Some(id);
      if j < i {
        assert es[..i][j].Attr(Id) == Some(id);
      }
    }
    forall id | id in IdSet(es[..i])
      ensures id in IdSet(es[..i + 1])
      ensures exists j :: 0 <= j < i && es[j].Attr(Id) == Some(id)
    {
      var j :| 0 <= j < i && es[..i][j].Attr(Id) == Some(id);
      assert es[..i + 1][j].Attr(Id) == Some(id) && es[j].Attr(Id) == Some(id);
    }
    assert es[..i + 1][i] == es[i];
  }

  /** Members of different families never share an identifier, so the cross-family check of
      `CollectAdmIds` never fires. */
  lemma FamiliesAreDisjoint(scope: Element, a: IdKind, b: IdKind)
    requires a != b
    requires DistinctIds(Members(scope, a), a) && DistinctIds(Members(scope, b), b)
    ensures IdsOf(scope, a) !! IdsOf(scope, b)
  {
    hide Members, IsAdmId;
    forall id | id in IdsOf(scope, a) && id in IdsOf(scope, b)
      ensures false
    {
      var i :| 0 <= i < |Members(scope, a)| && Members(scope, a)[i].Attr(Id) == Some(id);
      var j :| 0 <= j < |Members(scope, b)| && Members(scope, b)[j].Attr(Id) == Some(id);
      assert Identified(Members(scope, a)[i], a) && Identified(Members(scope, b)[j], b);
      KindsAreDisjoint(id, a, b);
    }
  }

  // ---------------------------------------------------------------- contiguous counters

  predicate Sorted(s: seq<nat>) {
    forall i, j :: 0 <= i < j < |s| ==> s[i] <= s[j]
  }

  function Insert(s: seq<nat>, x: nat): (t: seq<nat>)
    ensures |t| == |s| + 1
    ensures forall y :: y in t <==> y == x || y in s
  {
    if s == [] then [x]
    else if x <= s[0] then [x] + s
    else
      assert s == [s[0]] + s[1..];
      [s[0]] + Insert(s[1..], x)
  }

  lemma {:induction false} InsertSorts(s: seq<nat>, x: nat)
    requires Sorted(s)
    ensures Sorted(Insert(s, x))
  {
    if s != [] && x > s[0] {
      InsertSorts(s[1..], x);
      var rest := Insert(s[1..], x);
      forall i | 0 <= i < |rest|
        ensures s[0] <= rest[i]
      {
        assert rest[i] in rest;
      }
    }
  }

  /** Every identifier's counter, sorted. */
  method SortedCounters(ids: set<string>, kind: CounterKind) returns (r: Result<seq<nat>, AdmError>)
    ensures r.Ok? <==> forall id :: id in ids ==> Counter(id, kind).Some?
    ensures r.Ok? ==> |r.value| == |ids| && Sorted(r.value)
    ensures r.Ok? ==> forall c :: c in r.value <==> HasCounter(ids, c, kind)
  {
    hide Counter;
    var counters: seq<nat> := [];
    var rest, done := ids, {};
    while rest != {}
      invariant done !! rest && done + rest == ids
      invariant |counters| == |done| && Sorted(counters)
      invariant forall id :: id in done ==> Counter(id, kind).Some?
      invariant forall c :: c in counters <==> HasCounter(done, c, kind)
      decreases |rest|
    {
      var id :| id in rest;
      if Counter(id, kind).None? {
        return Err(InvalidAdmBwf);
      }
      InsertSorts(counters, Counter(id, kind).value);
      HasCounterStep(done, id, kind);
      counters := Insert(counters, Counter(id, kind).value);
      rest, done := rest - {id}, done + {id};
    }
    assert done == ids;
    return Ok(counters);
  }

  lemma HasCounterStep(done: set<string>, id: string, kind: CounterKind)
    requires Counter(id, kind).Some?
    ensures forall c :: HasCounter(done + {id}, c, kind) <==> c == Counter(id, kind).value || HasCounter(done, c, kind)
  {
    hide Counter;
    forall c
      ensures HasCounter(done + {id}, c, kind) <==> c == Counter(id, kind).value || HasCounter(done, c, kind)
    {
      if HasCounter(done, c, kind) {
        var i :| i in done && Counter(i, kind) == Some(c);
        assert i in done + {id};
      }
      assert id in done + {id};
    }
  }

  /** Sorts the counters and compares them with `first, first + 1, …` in checked 32-bit arithmetic. */
  method ValidateContiguousIds(ids: set<string>, first: nat, kind: CounterKind) returns (r: Result<(), AdmError>)
    ensures r.Ok? <==> Contiguous(ids, first, kind)
  {
    hide Counter, HasCounter;
    var counters :- SortedCounters(ids, kind);
    for index := 0 to |counters|
      invariant forall k :: 0 <= k < index ==> counters[k] == first + k
    {
      if Contiguous(ids, first, kind) {
        RunCovers(counters, first, index);
        CounterBound(ids, first + index, kind);
      }
      if first + index >= U32_LIMIT {
        return Err(SizeOverflow);
      }
      if counters[index] != first + index {
        return Err(InvalidAdmBwf);
      }
    }
    forall c | first <= c < first + |ids|
      ensures HasCounter(ids, c, kind)
    {
      assert counters[c - first] == c;
    }
    return Ok(());
  }

  lemma CounterBound(ids: set<string>, c: nat, kind: CounterKind)
    requires HasCounter(ids, c, kind)
    ensures c < U32_LIMIT
  {
    hide AllDigits, Value;
  }

  /** A sorted list as long as a run it covers is that run. */
  lemma RunCovers(s: seq<nat>, first: nat, k: nat)
    requires Sorted(s) && k < |s|
    requires forall c :: first <= c < first + |s| ==> c in s
    ensures s[k] == first + k
  {
    if s[k] > first + k {
      forall c | first <= c < first + k + 1
        ensures c in s[..k]
      {
        assert c in s;
        var i :| 0 <= i < |s| && s[i] == c;
        assert i < k;
        assert s[..k][i] == c;
      }
      RunFits(s[..k], first, k + 1);
    }
    if s[k] < first + k {
      var tail, low := s[k + 1..], first + k;
      forall c | low <= c < first + |s|
        ensures c in tail
      {
        assert c in s;
        var i :| 0 <= i < |s| && s[i] == c;
        assert i > k;
        assert tail[i - k - 1] == c;
      }
      RunFits(tail, low, |s| - k);
    }
  }

  /** A list holding `n` consecutive numbers has at least `n` elements. */
  lemma {:induction false} RunFits(s: seq<nat>, first: nat, n: nat)
    requires forall c :: first <= c < first + n ==> c in s
    ensures |s| >= n
  {
    if n > 0 {
      var last := first + n - 1;
      assert last in s;
      var i :| 0 <= i < |s| && s[i] == last;
      var t := s[..i] + s[i + 1..];
      forall c | first <= c < first + (n - 1)
        ensures c in t
      {
        assert c in s;
        var j :| 0 <= j < |s| && s[j] == c;
        assert t[if j < i then j else j - 1] == c;
      }
      RunFits(t, first, n - 1);
    }
  }

  // ---------------------------------------------------------------- rules and links

  method EachPasses(es: seq<Element>, rule: Element -> bool) returns (ok: bool)
    ensures ok <==> forall i :: 0 <= i < |es| ==> rule(es[i])
  {
    for i := 0 to |es|
      invariant forall j :: 0 <= j < i ==> rule(es[j])
    {
      if !rule(es[i]) {
        return false;
      }
    }
    return true;
  }

  /** The eight passes over the children of the format element. */
  method CheckRelations(scope: Element, rate: nat, samples: nat) returns (ok: bool)
    requires rate > 0
    ensures ok <==> RelationsOk(scope, rate, samples)
    ensures ChildrenDistinct(scope) ==>
      (ok <==> forall e :: e in scope.children ==> ElementConforms(scope, e, rate, samples))
  {
    hide Children, ProgrammeOk, ContentOk, ObjectOk, PackOk, ChannelOk, StreamOk, TrackFormatOk, UidOk, ElementConforms,
      ChildrenDistinct;
    RelationsConform(scope, rate, samples);
    var programmes := EachPasses(Children(scope, Programme), e => ProgrammeOk(scope, e, rate, samples));
    if !programmes { return false; }
    var contents := EachPasses(Children(scope, Content), e => ContentOk(scope, e));
    if !contents { return false; }
    var objects := EachPasses(Children(scope, Object), e => ObjectOk(scope, e, rate, samples));
    if !objects { return false; }
    var packs := EachPasses(Children(scope, Pack), e => PackOk(scope, e));
    if !packs { return false; }
    var channels := EachPasses(Children(scope, Channel), e => ChannelOk(e));
    if !channels { return false; }
    var streams := EachPasses(Children(scope, Stream), e => StreamOk(scope, e));
    if !streams { return false; }
    var trackFormats := EachPasses(Children(scope, TrackFormat), e => TrackFormatOk(scope, e));
    if !trackFormats { return false; }
    ok := EachPasses(Children(scope, TrackUid), e => UidOk(scope, e, rate));
  }

  /** Compares the UID elements with the stored records through a table keyed by UID. */
  method CheckLinks(scope: Element, chna: seq<ChnaRecord>) returns (ok: bool)
    requires DistinctIds(Children(scope, TrackUid), TrackUid)
    requires forall i :: 0 <= i < |Children(scope, TrackUid)| ==> Link(Children(scope, TrackUid)[i]).Some?
    ensures ok <==> LinksOk(scope, chna)
  {
    hide Children, Link, IsAdmId, RecordLinked, DistinctIds, IsTable;
    var uids := Children(scope, TrackUid);
    var links: map<string, (string, string)> := map[];
    EmptyTable(uids);
    for i := 0 to |uids|
      invariant IsTable(uids, i, links)
    {
      TableStep(uids, i, links);
      links := links[uids[i].Attr(Id).value := Link(uids[i]).value];
    }
    TableSize(uids, links);
    if |links| != |chna| {
      return false;
    }
    for i := 0 to |chna|
      invariant forall j :: 0 <= j < i ==> RecordLinked(scope, chna[j])
    {
      RecordByTable(scope, chna[i], links);
      if chna[i].uid !in links || links[chna[i].uid] != (chna[i].trackRef, chna[i].packRef) {
        return false;
      }
    }
    return true;
  }

  /** The table of the first `n` UID elements. */
  ghost predicate IsTable(uids: seq<Element>, n: nat, links: map<string, (string, string)>)
    requires n <= |uids|
  {
    && |links| == n
    && (forall u :: u in links ==> LinkedBy(uids, n, u, links[u]))
    && (forall j :: 0 <= j < n ==> uids[j].Attr(Id).Some? && uids[j].Attr(Id).value in links)
  }

  ghost predicate LinkedBy(uids: seq<Element>, n: nat, uid: string, link: (string, string))
    requires n <= |uids|
  {
    exists j :: 0 <= j < n && uids[j].Attr(Id) == Some(uid) && Link(uids[j]) == Some(link)
  }

  lemma EmptyTable(uids: seq<Element>)
    ensures IsTable(uids, 0, map[])
  {
  }

  lemma TableSize(uids: seq<Element>, links: map<string, (string, string)>)
    requires IsTable(uids, |uids|, links)
    ensures |links| == |uids|
  {
  }

  lemma TableStep(uids: seq<Element>, i: nat, links: map<string, (string, string)>)
    requires i < |uids| && IsTable(uids, i, links) && DistinctIds(uids, TrackUid) && Link(uids[i]).Some?
    ensures uids[i].Attr(Id).Some?
    ensures IsTable(uids, i + 1, links[uids[i].Attr(Id).value := Link(uids[i]).value])
  {
    hide Link, IsAdmId;
    assert Identified(uids[i], TrackUid);
    var id := uids[i].Attr(Id).value;
    assert id !in links;
    var table := links[id := Link(uids[i]).value];
    assert LinkedBy(uids, i + 1, id, table[id]);
    forall u | u in links
      ensures LinkedBy(uids, i + 1, u, links[u])
    {
      assert LinkedBy(uids, i, u, links[u]);
    }
  }

  lemma RecordByTable(scope: Element, record: ChnaRecord, links: map<string, (string, string)>)
    requires DistinctIds(Children(scope, TrackUid), TrackUid)
    requires IsTable(Children(scope, TrackUid), |Children(scope, TrackUid)|, links)
    ensures RecordLinked(scope, record) <==>
      record.uid in links && links[record.uid] == (record.trackRef, record.packRef)
  {
    hide *;
    var uids := Children(scope, TrackUid);
    var found := FindById(scope.children, AudioTrackUid, record.uid);
    FindByIdIsMember(scope.children, AudioTrackUid, record.uid);
    UidChildren(scope);
    LinkedMeans(scope, record);
    if found.Some? {
      var i :| 0 <= i < |uids| && uids[i] == found.value;
      TableHolds(uids, links, i, record.uid);
    }
    LinkedIsMember(uids, links, record.uid);
  }

  lemma TableHolds(uids: seq<Element>, links: map<string, (string, string)>, i: nat, uid: string)
    requires IsTable(uids, |uids|, links) && DistinctIds(uids, TrackUid)
    requires i < |uids| && uids[i].Attr(Id) == Some(uid)
    ensures uid in links && Link(uids[i]) == Some(links[uid])
  {
    hide Link, IsAdmId;
    var j := TableEntry(uids, links, uid);
    assert uids[i].Attr(Id) == uids[j].Attr(Id);
  }

  lemma LinkedIsMember(uids: seq<Element>, links: map<string, (string, string)>, uid: string)
    requires IsTable(uids, |uids|, links)
    ensures uid in links ==> exists e :: e in uids && e.Attr(Id) == Some(uid)
  {
    hide IsTable;
    if uid in links {
      var j := TableEntry(uids, links, uid);
      assert uids[j] in uids;
    }
  }

  lemma TableEntry(uids: seq<Element>, links: map<string, (string, string)>, uid: string) returns (j: nat)
    requires IsTable(uids, |uids|, links) && uid in links
    ensures j < |uids| && uids[j].Attr(Id) == Some(uid) && Link(uids[j]) == Some(links[uid])
  {
    hide Link;
    assert LinkedBy(uids, |uids|, uid, links[uid]);
    j :| 0 <= j < |uids| && uids[j].Attr(Id) == Some(uid) && Link(uids[j]) == Some(links[uid]);
  }

  lemma UidChildren(scope: Element)
    ensures Children(scope, TrackUid) == Named(scope.children, AudioTrackUid)
  {
    hide Named;
  }

  lemma LinkedMeans(scope: Element, record: ChnaRecord)
    ensures var uid := FindById(scope.children, AudioTrackUid, record.uid);
      RecordLinked(scope, record) <==> uid.Some? && Link(uid.value) == Some((record.trackRef, record.packRef))
  {
    hide FindById, Link;
  }

  // ---------------------------------------------------------------- the document

  /** The tables of the first `n` families. */
  ghost predicate Collected(scope: Element, n: nat, ids: map<IdKind, set<string>>, all: set<string>)
    requires n <= |FAMILIES|
  {
    && (forall k :: 0 <= k < n ==> FamilyCollected(scope, FAMILIES[k], ids))
    && forall id :: id in all ==> exists k :: 0 <= k < n && id in IdsOf(scope, FAMILIES[k])
  }

  ghost predicate FamilyCollected(scope: Element, kind: IdKind, ids: map<IdKind, set<string>>) {
    && DistinctIds(Members(scope, kind), kind)
    && kind in ids && ids[kind] == IdsOf(scope, kind) && |ids[kind]| == |Members(scope, kind)|
  }

  lemma CollectedStep(scope: Element, n: nat, ids: map<IdKind, set<string>>, all: set<string>)
    requires n < |FAMILIES| && Collected(scope, n, ids, all)
    requires DistinctIds(Members(scope, FAMILIES[n]), FAMILIES[n])
    ensures all !! IdsOf(scope, FAMILIES[n])
    ensures |IdsOf(scope, FAMILIES[n])| == |Members(scope, FAMILIES[n])| ==>
      Collected(scope, n + 1, ids[FAMILIES[n] := IdsOf(scope, FAMILIES[n])], all + IdsOf(scope, FAMILIES[n]))
  {
    hide Members, DistinctIds, IdsOf, FamilyCollected, FAMILIES;
    FamiliesDiffer();
    forall id | id in all && id in IdsOf(scope, FAMILIES[n])
      ensures false
    {
      var k :| 0 <= k < n && id in IdsOf(scope, FAMILIES[k]);
      CollectedIsDistinct(scope, FAMILIES[k], ids);
      FamiliesAreDisjoint(scope, FAMILIES[k], FAMILIES[n]);
    }
    var table := ids[FAMILIES[n] := IdsOf(scope, FAMILIES[n])];
    forall k | 0 <= k < n
      ensures FamilyCollected(scope, FAMILIES[k], table)
    {
      CollectedKept(scope, FAMILIES[k], ids, FAMILIES[n], IdsOf(scope, FAMILIES[n]));
    }
    if |IdsOf(scope, FAMILIES[n])| == |Members(scope, FAMILIES[n])| {
      CollectedNow(scope, FAMILIES[n], ids);
    }
  }

  lemma FamiliesDiffer()
    ensures |FAMILIES| == 9 && forall j, k :: 0 <= j < k < |FAMILIES| ==> FAMILIES[j] != FAMILIES[k]
  {
  }

  lemma CollectedIsDistinct(scope: Element, kind: IdKind, ids: map<IdKind, set<string>>)
    requires FamilyCollected(scope, kind, ids)
    ensures DistinctIds(Members(scope, kind), kind)
  {
  }

  lemma CollectedKept(scope: Element, kind: IdKind, ids: map<IdKind, set<string>>, other: IdKind, found: set<string>)
    requires FamilyCollected(scope, kind, ids) && other != kind
    ensures FamilyCollected(scope, kind, ids[other := found])
  {
    hide Members, DistinctIds, IdsOf;
  }

  lemma CollectedNow(scope: Element, kind: IdKind, ids: map<IdKind, set<string>>)
    requires DistinctIds(Members(scope, kind), kind) && |IdsOf(scope, kind)| == |Members(scope, kind)|
    ensures FamilyCollected(scope, kind, ids[kind := IdsOf(scope, kind)])
  {
    hide Members, DistinctIds, IdsOf;
  }

  lemma AllCollected(scope: Element, ids: map<IdKind, set<string>>, all: set<string>)
    requires Collected(scope, |FAMILIES|, ids, all)
    ensures forall kind: IdKind :: FamilyCollected(scope, kind, ids)
  {
    hide FamilyCollected;
    forall kind: IdKind
      ensures FamilyCollected(scope, kind, ids)
    {
      assert FAMILIES[Rank(kind)] == kind;
    }
  }

  /** A family's place in the collection order. */
  function Rank(kind: IdKind): (k: nat)
    ensures k < |FAMILIES|
  {
    match kind
    case Programme => 0
    case Content => 1
    case Object => 2
    case Pack => 3
    case Channel => 4
    case Block => 5
    case Stream => 6
    case TrackFormat => 7
    case TrackUid => 8
  }

  /** Collects every family; fails exactly when some family's identifiers are malformed or repeat. */
  method CollectFamilies(scope: Element) returns (r: Result<map<IdKind, set<string>>, AdmError>)
    ensures r.Ok? <==> forall kind: IdKind :: DistinctIds(Members(scope, kind), kind)
    ensures r.Ok? ==> forall kind: IdKind :: FamilyCollected(scope, kind, r.value)
  {
    hide Members, DistinctIds, IdsOf, Collected;
    var ids: map<IdKind, set<string>> := map[];
    var all: set<string> := {};
    NothingCollected(scope);
    for i := 0 to |FAMILIES|
      invariant Collected(scope, i, ids, all)
    {
      if DistinctIds(Members(scope, FAMILIES[i]), FAMILIES[i]) {
        CollectedStep(scope, i, ids, all);
      }
      var family :- CollectAdmIds(scope, FAMILIES[i], all);
      ids := ids[FAMILIES[i] := family.0];
      all := family.1;
    }
    AllCollected(scope, ids, all);
    assert forall kind: IdKind :: FamilyCollected(scope, kind, ids) ==> DistinctIds(Members(scope, kind), kind);
    return Ok(ids);
  }

  lemma NothingCollected(scope: Element)
    ensures Collected(scope, 0, map[], {})
  {
  }

  /** Identifier collection, counts and contiguity. */
  method CheckIdentifiers(scope: Element, uids: nat) returns (r: Result<(), AdmError>)
    ensures r.Ok? <==> IdentifiersOk(scope, uids)
  {
    hide Members, DistinctIds, Contiguous, IdsOf;
    var ids :- CollectFamilies(scope);
    assert forall kind: IdKind :: FamilyCollected(scope, kind, ids);
    assert FamilyCollected(scope, Programme, ids) && FamilyCollected(scope, Content, ids) &&
      FamilyCollected(scope, Object, ids);
    assert FamilyCollected(scope, Pack, ids) && FamilyCollected(scope, Channel, ids) &&
      FamilyCollected(scope, Block, ids);
    assert FamilyCollected(scope, Stream, ids) && FamilyCollected(scope, TrackFormat, ids) &&
      FamilyCollected(scope, TrackUid, ids);
    if |ids[Programme]| != 1 || |ids[Content]| == 0 || |ids[Object]| == 0 || |ids[Pack]| == 0
       || |ids[Channel]| != uids || |ids[Block]| == 0 || |ids[Stream]| != uids
       || |ids[TrackFormat]| != uids || |ids[TrackUid]| != uids {
      return Err(InvalidAdmBwf);
    }
    if PROGRAMME_ID !in ids[Programme] {
      return Err(InvalidAdmBwf);
    }
    var _ :- ValidateContiguousIds(ids[Content], COUNTER_BASE, ContentCounter);
    var _ :- ValidateContiguousIds(ids[Pack], COUNTER_BASE, FormatCounter);
    var _ :- ValidateContiguousIds(ids[Channel], COUNTER_BASE, FormatCounter);
    var _ :- ValidateContiguousIds(ids[Stream], COUNTER_BASE, FormatCounter);
    var _ :- ValidateContiguousIds(ids[TrackFormat], COUNTER_BASE, FormatCounter);
    r := ValidateContiguousIds(ids[TrackUid], 1, UidCounter);
  }

  /** Accepts exactly the conforming documents. */
  method ValidateAdmXml(doc: Document, rate: nat, samples: nat, chna: seq<ChnaRecord>) returns (r: Result<(), AdmError>)
    requires rate > 0
    ensures r.Ok? <==> DocumentAccepted(doc, rate, samples, chna)
    ensures r.Ok? <==> Conforms(doc, rate, samples, chna)
  {
    hide ExtendedOf, IdentifiersOk, RelationsOk, LinksOk, Conforms;
    AcceptanceIsConformance(doc, rate, samples, chna);
    var scope := ExtendedOf(doc);
    if scope.None? {
      return Err(InvalidAdmBwf);
    }
    var identifiers := CheckIdentifiers(scope.value, |chna|);
    if identifiers.Err? {
      return identifiers;
    }
    var relations := CheckRelations(scope.value, rate, samples);
    if !relations {
      return Err(InvalidAdmBwf);
    }
    UidsAreReady(scope.value, rate, samples, |chna|);
    var links := CheckLinks(scope.value, chna);
    if !links {
      return Err(InvalidAdmBwf);
    }
    return Ok(());
  }

  lemma UidsAreReady(scope: Element, rate: nat, samples: nat, uids: nat)
    requires rate > 0 && IdentifiersOk(scope, uids) && RelationsOk(scope, rate, samples)
    ensures DistinctIds(Children(scope, TrackUid), TrackUid)
    ensures forall i :: 0 <= i < |Children(scope, TrackUid)| ==> Link(Children(scope, TrackUid)[i]).Some?
  {
    hide DistinctIds, Contiguous, Link, Named, Found;
    NamedAreDistinct(scope.children, TrackUid);
    forall i | 0 <= i < |Children(scope, TrackUid)|
      ensures Link(Children(scope, TrackUid)[i]).Some?
    {
      assert UidOk(scope, Children(scope, TrackUid)[i], rate);
    }
  }
}
