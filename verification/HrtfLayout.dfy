/** The two-pass CDF-1 writer of the HRTF tool: headers with offsets, then the data they point at. */
module HrtfLayout {
  import opened Wrappers
  import opened Bytes

  /** A big-endian 32-bit word; `struct.pack` rejects larger values. */
  function Word(n: nat): (bs: seq<byte>)
    requires n < U32_LIMIT
    ensures |bs| == 4
  {
    [n / 0x100_0000, n / 0x1_0000 % 256, n / 256 % 256, n % 256]
  }

  function FromWord(bs: seq<byte>): nat
    requires |bs| == 4
  {
    (bs[0] as nat) * 0x100_0000 + (bs[1] as nat) * 0x1_0000 + (bs[2] as nat) * 256 + bs[3] as nat
  }

  lemma WordRoundTrip(n: nat)
    requires n < U32_LIMIT
    ensures FromWord(Word(n)) == n
  {
    var a, b := n / 0x1_0000, n / 256;
    assert n == b * 256 + n % 256 && b == a * 256 + b % 256;
    assert a == n / 0x100_0000 * 256 + a % 256;
  }

  // ---------------------------------------------------------------- pieces of the header

  /** Bytes missing to the next multiple of four. */
  function PadLength(n: nat): (p: nat)
    ensures p < 4 && (n + p) % 4 == 0
  {
    (4 - n % 4) % 4
  }

  function Pad4(data: seq<byte>): (bs: seq<byte>)
    ensures |bs| % 4 == 0 && data <= bs
  {
    data + Zeros(PadLength(|data|))
  }

  predicate Short(s: seq<byte>) {
    |s| < U32_LIMIT
  }

  function NcString(raw: seq<byte>): seq<byte>
    requires Short(raw)
  {
    Word(|raw|) + Pad4(raw)
  }

  datatype Attribute = Attribute(name: seq<byte>, value: seq<byte>) {
    predicate Fits() {
      Short(name) && Short(value)
    }

    function Encode(): seq<byte>
      requires Fits()
    {
      NcString(name) + Word(2) + Word(|value|) + Pad4(value)
    }
  }

  predicate AttributesFit(attributes: seq<Attribute>) {
    |attributes| < U32_LIMIT && forall i :: 0 <= i < |attributes| ==> attributes[i].Fits()
  }

  function EncodeAttributes(attributes: seq<Attribute>): seq<byte>
    requires AttributesFit(attributes)
  {
    if attributes == [] then []
    else
      assert attributes[|attributes| - 1].Fits();
      EncodeAttributes(attributes[..|attributes| - 1]) + attributes[|attributes| - 1].Encode()
  }

  datatype Dimension = Dimension(name: seq<byte>, length: nat) {
    predicate Fits() {
      Short(name) && length < U32_LIMIT
    }
  }

  function Words(ns: seq<nat>): (bs: seq<byte>)
    requires forall i :: 0 <= i < |ns| ==> ns[i] < U32_LIMIT
    ensures |bs| == 4 * |ns|
  {
    if ns == [] then [] else Words(ns[..|ns| - 1]) + Word(ns[|ns| - 1])
  }

  /** A variable: its name, dimensions, attributes, type and data. */
  datatype Variable = Variable(name: seq<byte>, dims: seq<nat>, attributes: seq<Attribute>, ty: nat, data: seq<byte>) {
    predicate Fits() {
      && Short(name) && Short(data) && ty < U32_LIMIT && |dims| < U32_LIMIT
      && (forall i :: 0 <= i < |dims| ==> dims[i] < U32_LIMIT)
      && AttributesFit(attributes)
    }
  }

  /** `nc_var` up to its last word, the begin offset. */
  function VarFront(v: Variable): seq<byte>
    requires v.Fits()
  {
    NcString(v.name) + Word(|v.dims|) + Words(v.dims) +
    (if v.attributes != [] then Word(12) + Word(|v.attributes|) + EncodeAttributes(v.attributes) else Word(0)) +
    Word(v.ty) + Word(|v.data|)
  }

  /** `nc_var`. */
  function NcVar(v: Variable, begin: nat): (bs: seq<byte>)
    requires v.Fits() && begin < U32_LIMIT
    ensures |bs| == |VarFront(v)| + 4
  {
    VarFront(v) + Word(begin)
  }

  /** The recorded begin offset is the last word of a variable's header, and its length does not depend on it. */
  lemma BeginIsRecorded(v: Variable, begin: nat, other: nat)
    requires v.Fits() && begin < U32_LIMIT && other < U32_LIMIT
    ensures |NcVar(v, begin)| == |NcVar(v, other)|
    ensures FromWord(NcVar(v, begin)[|NcVar(v, begin)| - 4..]) == begin
  {
    hide VarFront, Word, FromWord;
    WordRoundTrip(begin);
    var bs := NcVar(v, begin);
    assert bs[|bs| - 4..] == Word(begin);
  }

  predicate AllFit(variables: seq<Variable>) {
    forall i :: 0 <= i < |variables| ==> variables[i].Fits()
  }

  predicate OffsetsFit(begins: seq<nat>) {
    forall i :: 0 <= i < |begins| ==> begins[i] < U32_LIMIT
  }

  /** The headers of all variables, one part each. */
  function VarHeaders(variables: seq<Variable>, begins: seq<nat>): (parts: seq<seq<byte>>)
    requires AllFit(variables) && OffsetsFit(begins) && |begins| == |variables|
    ensures |parts| == |variables|
  {
    seq(|variables|, i requires 0 <= i < |variables| && variables[i].Fits() &&
      begins[i] < U32_LIMIT => NcVar(variables[i], begins[i]))
  }

  /** The header pass yields the same length whatever the offsets. */
  lemma {:induction false} HeaderLength(variables: seq<Variable>, a: seq<nat>, b: seq<nat>)
    requires AllFit(variables) && OffsetsFit(a) && OffsetsFit(b) && |a| == |b| == |variables|
    ensures |Flatten(VarHeaders(variables, a))| == |Flatten(VarHeaders(variables, b))|
  {
    hide NcVar, VarFront, Variable.Fits;
    if variables != [] {
      assert VarHeaders(variables, a)[1..] == VarHeaders(variables[1..], a[1..]);
      assert VarHeaders(variables, b)[1..] == VarHeaders(variables[1..], b[1..]);
      HeaderLength(variables[1..], a[1..], b[1..]);
      BeginIsRecorded(variables[0], a[0], b[0]);
    }
  }

  // ---------------------------------------------------------------- offsets and data

  function Align4(n: nat): nat {
    n + PadLength(n)
  }

  /** Where variable `k` begins behind a header of `size` bytes. */
  function Begin(variables: seq<Variable>, size: nat, k: nat): nat
    requires k < |variables|
  {
    Align4(EndBefore(variables, size, k))
  }

  /** Where the data of the first `k` variables ends. */
  function EndBefore(variables: seq<Variable>, size: nat, k: nat): nat
    requires k <= |variables|
  {
    if k == 0 then size else Align4(EndBefore(variables, size, k - 1)) + |variables[k - 1].data|
  }

  function Begins(variables: seq<Variable>, size: nat): (begins: seq<nat>)
    ensures |begins| == |variables|
  {
    seq(|variables|, k requires 0 <= k < |variables| => Begin(variables, size, k))
  }

  /** The header in front of the variable list. */
  datatype Front = Front(dimensions: seq<Dimension>, attributes: seq<Attribute>) {
    predicate Fits() {
      && |dimensions| < U32_LIMIT && (forall i :: 0 <= i < |dimensions| ==> dimensions[i].Fits())
      && AttributesFit(attributes)
    }
  }

  function DimensionBytes(ds: seq<Dimension>): seq<byte>
    requires forall i :: 0 <= i < |ds| ==> ds[i].Fits()
  {
    if ds == [] then []
    else
      assert ds[|ds| - 1].Fits();
      DimensionBytes(ds[..|ds| - 1]) + NcString(ds[|ds| - 1].name) + Word(ds[|ds| - 1].length)
  }

  function FrontBytes(front: Front, count: nat): seq<byte>
    requires front.Fits() && count < U32_LIMIT
  {
    [0x43, 0x44, 0x46, 1] + Word(0) + Word(10) + Word(|front.dimensions|) + DimensionBytes(front.dimensions) +
    Word(12) + Word(|front.attributes|) + EncodeAttributes(front.attributes) + Word(11) + Word(count)
  }

  /** The header length found by the provisional pass. */
  function HeaderSize(front: Front, variables: seq<Variable>): nat
    requires front.Fits() && |variables| < U32_LIMIT && AllFit(variables)
  {
    |FrontBytes(front, |variables|)| + |Flatten(VarHeaders(variables, Provisional(variables)))|
  }

  function Provisional(variables: seq<Variable>): (begins: seq<nat>)
    ensures |begins| == |variables| && OffsetsFit(begins)
  {
    seq(|variables|, _ => 0)
  }

  /** Every word that `struct.pack` gets is in range. */
  predicate Packable(front: Front, variables: seq<Variable>) {
    && front.Fits() && |variables| < U32_LIMIT && AllFit(variables)
    && OffsetsFit(Begins(variables, HeaderSize(front, variables)))
  }

  lemma {:induction false} EndsAscend(variables: seq<Variable>, size: nat, j: nat, k: nat)
    requires j <= k <= |variables|
    ensures EndBefore(variables, size, j) <= EndBefore(variables, size, k)
  {
    if j < k {
      EndsAscend(variables, size, j, k - 1);
    }
  }

  /** What a file lays out correctly: the header intact in front, and each variable's data exactly where its
      header says, in disjoint ascending ranges. */
  ghost predicate LaidOut(front: Front, variables: seq<Variable>, blob: seq<byte>)
    requires Packable(front, variables)
  {
    var size := HeaderSize(front, variables);
    var begins := Begins(variables, size);
    && size <= |blob|
    && blob[..size] == FrontBytes(front, |variables|) + Flatten(VarHeaders(variables, begins))
    && (forall k :: 0 <= k < |variables| ==> DataAt(variables, size, blob, k) && GapAt(variables, size, blob, k))
    && (forall j, k :: 0 <= j < k < |variables| ==> begins[j] + |variables[j].data| <= begins[k])
    && |blob| == EndBefore(variables, size, |variables|)
  }

  ghost predicate DataAt(variables: seq<Variable>, size: nat, blob: seq<byte>, k: nat)
    requires k < |variables|
  {
    var begin, data := Begin(variables, size, k), variables[k].data;
    && begin % 4 == 0 && size <= begin && begin + |data| <= |blob|
    && blob[begin..begin + |data|] == data
  }

  /** Only zeros stand between the data before variable `k` and its own. */
  ghost predicate GapAt(variables: seq<Variable>, size: nat, blob: seq<byte>, k: nat)
    requires k < |variables|
  {
    && Begin(variables, size, k) <= |blob|
    && forall i :: EndBefore(variables, size, k) <= i < Begin(variables, size, k) ==> blob[i] == 0
  }

  lemma GapStays(variables: seq<Variable>, size: nat, blob: seq<byte>, more: seq<byte>, k: nat)
    requires k < |variables| && GapAt(variables, size, blob, k)
    ensures GapAt(variables, size, blob + more, k)
  {
    hide Begin, EndBefore;
  }

  lemma DataStays(variables: seq<Variable>, size: nat, blob: seq<byte>, more: seq<byte>, k: nat)
    requires k < |variables| && DataAt(variables, size, blob, k)
    ensures DataAt(variables, size, blob + more, k)
  {
    hide Begin;
    var begin, data := Begin(variables, size, k), variables[k].data;
    assert (blob + more)[begin..begin + |data|] == blob[begin..begin + |data|];
  }

  /** The layout of `convert_sofa`: a provisional header with zero offsets, the authoritative one, and the
      padded data. It fails exactly when some packed value needs more than 32 bits. */
  method ConvertSofa(front: Front, variables: seq<Variable>) returns (r: Option<seq<byte>>)
    ensures r.Some? <==> Packable(front, variables)
    ensures r.Some? ==> LaidOut(front, variables, r.value)
  {
    hide FrontBytes, VarHeaders, Flatten, Front.Fits, Align4;
    if !front.Fits() || |variables| >= U32_LIMIT || !AllFit(variables) {
      return None;
    }
    var header := FrontBytes(front, |variables|);
    var provisional := Flatten(VarHeaders(variables, Provisional(variables)));
    var headerSize := |header| + |provisional|;
    var begins: seq<nat> := [];
    var offset := headerSize;
    for k := 0 to |variables|
      invariant |begins| == k && OffsetsFit(begins)
      invariant offset == EndBefore(variables, headerSize, k)
      invariant forall j :: 0 <= j < k ==> begins[j] == Begin(variables, headerSize, j)
    {
      offset := Align4(offset);
      if offset >= U32_LIMIT {
        assert Begins(variables, headerSize)[k] >= U32_LIMIT;
        return None;
      }
      begins := begins + [offset];
      offset := offset + |variables[k].data|;
    }
    assert begins == Begins(variables, headerSize);
    header := header + Flatten(VarHeaders(variables, begins));
    HeaderLength(variables, begins, Provisional(variables));
    assert |header| == headerSize;
    var blob := FillBlob(header, variables);
    assert blob[..headerSize] == header;
    BeginsAscend(variables, headerSize);
    return Some(blob);
  }

  lemma BeginsAscend(variables: seq<Variable>, size: nat)
    ensures forall j, k :: 0 <= j < k < |variables| ==>
      Begins(variables, size)[j] + |variables[j].data| <= Begins(variables, size)[k]
  {
    forall j, k | 0 <= j < k < |variables|
      ensures Begins(variables, size)[j] + |variables[j].data| <= Begins(variables, size)[k]
    {
      EndsAscend(variables, size, j + 1, k);
    }
  }

  /** Zero bytes up to a multiple of four. */
  method PadBlob(blob: seq<byte>) returns (padded: seq<byte>)
    ensures |padded| == Align4(|blob|) && blob <= padded
    ensures forall i :: |blob| <= i < |padded| ==> padded[i] == 0
  {
    hide PadLength;
    padded := blob;
    PadIsNext(|blob|, |blob|);
    while |padded| % 4 != 0
      invariant blob <= padded && |padded| <= Align4(|blob|)
      invariant forall i :: |blob| <= i < |padded| ==> padded[i] == 0
      decreases Align4(|blob|) - |padded|
    {
      PadIsNext(|blob|, |padded|);
      padded := padded + [0];
    }
    PadIsNext(|blob|, |padded|);
  }

  /** The padded length is the next multiple of four. */
  lemma PadIsNext(n: nat, m: nat)
    requires n <= m <= Align4(n)
    ensures m == Align4(n) <==> m % 4 == 0
  {
  }

  /** Appends each variable's data behind padding to a multiple of four. */
  method FillBlob(header: seq<byte>, variables: seq<Variable>) returns (blob: seq<byte>)
    ensures |blob| == EndBefore(variables, |header|, |variables|)
    ensures header <= blob
    ensures forall k :: 0 <= k < |variables| ==>
      DataAt(variables, |header|, blob, k) && GapAt(variables, |header|, blob, k)
  {
    hide *;
    blob := header;
    NoneBefore(variables, |header|);
    for k := 0 to |variables|
      invariant |blob| == EndBefore(variables, |header|, k) && header <= blob
      invariant forall j :: 0 <= j < k ==> DataAt(variables, |header|, blob, j) && GapAt(variables, |header|, blob, j)
    {
      NextEnd(variables, |header|, k);
      var padded := PadBlob(blob);
      DataPlaced(variables, |header|, padded, k);
      GapPlaced(variables, |header|, padded, k);
      forall j | 0 <= j < k
        ensures DataAt(variables, |header|, padded + variables[k].data, j)
        ensures GapAt(variables, |header|, padded + variables[k].data, j)
      {
        assert padded + variables[k].data == blob + (padded[|blob|..] + variables[k].data);
        DataStays(variables, |header|, blob, padded[|blob|..] + variables[k].data, j);
        GapStays(variables, |header|, blob, padded[|blob|..] + variables[k].data, j);
      }
      blob := padded + variables[k].data;
    }
  }

  lemma NoneBefore(variables: seq<Variable>, size: nat)
    ensures EndBefore(variables, size, 0) == size
  {
  }

  lemma NextEnd(variables: seq<Variable>, size: nat, k: nat)
    requires k < |variables|
    ensures Begin(variables, size, k) == Align4(EndBefore(variables, size, k))
    ensures EndBefore(variables, size, k + 1) == Begin(variables, size, k) + |variables[k].data|
  {
    hide Align4;
  }

  lemma DataPlaced(variables: seq<Variable>, size: nat, padded: seq<byte>, k: nat)
    requires k < |variables| && |padded| == Begin(variables, size, k)
    ensures DataAt(variables, size, padded + variables[k].data, k)
  {
    EndsAscend(variables, size, 0, k);
  }

  lemma GapPlaced(variables: seq<Variable>, size: nat, padded: seq<byte>, k: nat)
    requires k < |variables| && |padded| == Begin(variables, size, k)
    requires forall i :: EndBefore(variables, size, k) <= i < |padded| ==> padded[i] == 0
    ensures GapAt(variables, size, padded + variables[k].data, k)
  {
    hide Begin, EndBefore;
  }

  /** Where the header of variable `k` ends in the file. */
  function HeaderEnd(front: Front, variables: seq<Variable>, k: nat): nat
    requires Packable(front, variables) && k < |variables|
  {
    |FrontBytes(front, |variables|)| +
      OffsetOf(VarHeaders(variables, Begins(variables, HeaderSize(front, variables))), k + 1)
  }

  /** The word in front of `end` is the aligned offset of this data in the file. */
  ghost predicate PointsAt(blob: seq<byte>, end: nat, data: seq<byte>) {
    && 4 <= end <= |blob|
    && var begin := FromWord(blob[end - 4..end]);
       begin % 4 == 0 && begin + |data| <= |blob| && blob[begin..begin + |data|] == data
  }

  /** Following the offset stored in the file leads to the variable's data. */
  lemma PointersResolve(front: Front, variables: seq<Variable>, blob: seq<byte>, k: nat)
    requires Packable(front, variables) && LaidOut(front, variables, blob) && k < |variables|
    ensures PointsAt(blob, HeaderEnd(front, variables, k), variables[k].data)
  {
    hide *;
    PackableParts(front, variables);
    var size := HeaderSize(front, variables);
    var begins := Begins(variables, size);
    LaidOutParts(front, variables, blob, k);
    var fixed, parts := FrontBytes(front, |variables|), VarHeaders(variables, begins);
    PartAt(parts, k);
    HeaderPart(variables, begins, k);
    BeginIsRecorded(variables[k], begins[k], begins[k]);
    LastWord(blob, fixed, Flatten(parts), size, OffsetOf(parts, k), OffsetOf(parts, k + 1), parts[k]);
    PointsAtData(variables, size, blob, HeaderEnd(front, variables, k), begins[k], k);
  }

  lemma PackableParts(front: Front, variables: seq<Variable>)
    requires Packable(front, variables)
    ensures front.Fits() && |variables| < U32_LIMIT && AllFit(variables)
  {
    hide Front.Fits, AllFit, Begins, HeaderSize;
  }

  lemma LaidOutParts(front: Front, variables: seq<Variable>, blob: seq<byte>, k: nat)
    requires Packable(front, variables) && LaidOut(front, variables, blob) && k < |variables|
    ensures var size := HeaderSize(front, variables);
      var begins := Begins(variables, size);
      && front.Fits() && |variables| < U32_LIMIT && AllFit(variables) && OffsetsFit(begins)
      && size <= |blob| && blob[..size] == FrontBytes(front, |variables|) + Flatten(VarHeaders(variables, begins))
      && HeaderEnd(front, variables, k) ==
        |FrontBytes(front, |variables|)| + OffsetOf(VarHeaders(variables, begins), k + 1)
      && DataAt(variables, size, blob, k) && begins[k] == Begin(variables, size, k)
  {
    hide FrontBytes, VarHeaders, Front.Fits, Variable.Fits, DataAt, GapAt, Flatten, Begin;
  }

  lemma HeaderPart(variables: seq<Variable>, begins: seq<nat>, k: nat)
    requires AllFit(variables) && OffsetsFit(begins) && |begins| == |variables| && k < |variables|
    ensures variables[k].Fits() && begins[k] < U32_LIMIT
    ensures VarHeaders(variables, begins)[k] == NcVar(variables[k], begins[k]) && |NcVar(variables[k], begins[k])| >= 4
  {
    hide VarFront, Variable.Fits, Word;
  }

  lemma PointsAtData(variables: seq<Variable>, size: nat, blob: seq<byte>, end: nat, begin: nat, k: nat)
    requires k < |variables| && DataAt(variables, size, blob, k) && begin == Begin(variables, size, k)
    requires 4 <= end <= |blob| && FromWord(blob[end - 4..end]) == begin
    ensures PointsAt(blob, end, variables[k].data)
  {
    hide Begin, FromWord;
  }

  lemma LastWord(blob: seq<byte>, fixed: seq<byte>, headers: seq<byte>, size: nat, from: nat, to: nat, part: seq<byte>)
    requires size <= |blob| && blob[..size] == fixed + headers && from <= to <= |headers|
    requires headers[from..to] == part && |part| >= 4
    ensures 4 <= |fixed| + to <= |blob| && blob[|fixed| + to - 4..|fixed| + to] == part[|part| - 4..]
  {
    var end := |fixed| + to;
    assert blob[end - 4..end] == blob[..size][end - 4..end];
    assert (fixed + headers)[end - 4..end] == headers[to - 4..to];
    SliceOfSlice(headers, from, to, |part| - 4, |part|);
  }
}
