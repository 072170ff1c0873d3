/** ADM identifiers (ITU-R BS.2076, section 6): syntax, counters and the exporter's numbering. */
module AdmIds {
  import opened Wrappers
  import opened Bytes
  import opened Text

  datatype IdKind = Programme | Content | Object | Pack | Channel | Block | Stream | TrackFormat | TrackUid

  function Prefix(kind: IdKind): string {
    match kind
    case Programme => "APR_"
    case Content => "ACO_"
    case Object => "AO_"
    case Pack => "AP_"
    case Channel => "AC_"
    case Block => "AB_"
    case Stream => "AS_"
    case TrackFormat => "AT_"
    case TrackUid => "ATU_"
  }

  function BodyLength(kind: IdKind): nat {
    match kind
    case Programme | Content | Object => 4
    case Pack | Channel | Stream | TrackUid => 8
    case TrackFormat => 11
    case Block => 17
  }

  predicate IsIdBody(body: string, kind: IdKind) {
    && |body| == BodyLength(kind)
    && (if kind == Block || kind == TrackFormat then
          body[8] == '_' && AllDigits(body[..8], 16) && AllDigits(body[9..], 16)
        else
          AllDigits(body, 16))
  }

  predicate IsAdmId(value: string, kind: IdKind) {
    Prefix(kind) <= value && IsIdBody(value[|Prefix(kind)|..], kind)
  }

  lemma IdParts(body: string, kind: IdKind)
    ensures var id, p := Prefix(kind) + body, |Prefix(kind)|;
      && id[..p] == Prefix(kind) && id[p..] == body
      && (IsAdmId(id, kind) <==> IsIdBody(body, kind))
  {
    var id, p := Prefix(kind) + body, |Prefix(kind)|;
    assert id[..p] == Prefix(kind) && id[p..] == body;
  }

  /** The shape of an identifier, with `h` for a hexadecimal digit. */
  function Pattern(kind: IdKind): string {
    match kind
    case Programme => "APR_hhhh"
    case Content => "ACO_hhhh"
    case Object => "AO_hhhh"
    case Pack => "AP_hhhhhhhh"
    case Channel => "AC_hhhhhhhh"
    case Block => "AB_hhhhhhhh_hhhhhhhh"
    case Stream => "AS_hhhhhhhh"
    case TrackFormat => "AT_hhhhhhhh_hh"
    case TrackUid => "ATU_hhhhhhhh"
  }

  predicate CharFits(c: char, p: char) {
    if p == 'h' then DigitValue(c) < 16 else c == p
  }

  predicate Matches(value: string, pattern: string) {
    |value| == |pattern| && forall i :: 0 <= i < |pattern| ==> CharFits(value[i], pattern[i])
  }

  /** A well-formed identifier is one that has the shape of its kind. */
  lemma IdShapes(value: string, kind: IdKind)
    ensures IsAdmId(value, kind) <==> Matches(value, Pattern(kind))
  {
    hide IsAdmId, Matches, Pattern, IsIdBody;
    var p, q := Prefix(kind), |Prefix(kind)|;
    PatternParts(kind);
    PrefixMatches(value, p, Pattern(kind));
    if p <= value {
      BodyMatches(value[q..], kind);
      assert Pattern(kind) == p + Pattern(kind)[q..];
    }
    IdUnfolds(value, kind);
  }

  lemma IdUnfolds(value: string, kind: IdKind)
    ensures IsAdmId(value, kind) <==> Prefix(kind) <= value && IsIdBody(value[|Prefix(kind)|..], kind)
  {
  }

  lemma PatternParts(kind: IdKind)
    ensures Prefix(kind) <= Pattern(kind) && 'h' !in Prefix(kind)
    ensures Pattern(kind)[|Prefix(kind)|..] == BodyPattern(kind)
  {
    hide Prefix, Pattern, BodyPattern;
    match kind
    case Programme | Content | Object => FourDigits(kind);
    case Pack | Channel | Stream | TrackUid => EightDigits(kind);
    case TrackFormat | Block => TwoFields(kind);
    assert (Prefix(kind) + BodyPattern(kind))[|Prefix(kind)|..] == BodyPattern(kind);
  }

  lemma FourDigits(kind: IdKind)
    requires kind == Programme || kind == Content || kind == Object
    ensures Pattern(kind) == Prefix(kind) + BodyPattern(kind) && 'h' !in Prefix(kind)
  {
  }

  lemma EightDigits(kind: IdKind)
    requires kind == Pack || kind == Channel || kind == Stream || kind == TrackUid
    ensures Pattern(kind) == Prefix(kind) + BodyPattern(kind) && 'h' !in Prefix(kind)
  {
  }

  lemma TwoFields(kind: IdKind)
    requires kind == TrackFormat || kind == Block
    ensures Pattern(kind) == Prefix(kind) + BodyPattern(kind) && 'h' !in Prefix(kind)
  {
  }

  function BodyPattern(kind: IdKind): string {
    match kind
    case Programme | Content | Object => "hhhh"
    case Pack | Channel | Stream | TrackUid => "hhhhhhhh"
    case TrackFormat => "hhhhhhhh_hh"
    case Block => "hhhhhhhh_hhhhhhhh"
  }

  lemma PrefixMatches(value: string, p: string, pattern: string)
    requires p <= pattern && 'h' !in p
    ensures Matches(value, pattern) <==> p <= value && Matches(value[|p|..], pattern[|p|..])
  {
    if Matches(value, pattern) {
      assert forall i :: 0 <= i < |p| ==> pattern[i] == p[i] && CharFits(value[i], pattern[i]);
      assert forall i :: 0 <= i < |pattern| - |p| ==>
        value[|p|..][i] == value[|p| + i] && CharFits(value[|p| + i], pattern[|p| + i]);
    }
    if p <= value && Matches(value[|p|..], pattern[|p|..]) {
      forall i | 0 <= i < |pattern|
        ensures CharFits(value[i], pattern[i])
      {
        if i < |p| {
          assert value[i] == p[i] && pattern[i] == p[i];
        } else {
          assert CharFits(value[|p|..][i - |p|], pattern[|p|..][i - |p|]);
        }
      }
    }
  }

  lemma BodyMatches(body: string, kind: IdKind)
    ensures IsIdBody(body, kind) <==> Matches(body, BodyPattern(kind))
  {
    hide DigitValue;
    var pattern := BodyPattern(kind);
    assert |pattern| == BodyLength(kind);
    if |body| == BodyLength(kind) {
      if kind == Block || kind == TrackFormat {
        TwoFieldsMatch(body, pattern);
      } else {
        assert forall i :: 0 <= i < |body| ==> (DigitAt(body, i, 16) <==> CharFits(body[i], pattern[i]));
      }
    }
  }

  lemma TwoFieldsMatch(body: string, pattern: string)
    requires |body| == |pattern| > 9 && pattern[8] == '_'
    requires forall i :: 0 <= i < |pattern| && i != 8 ==> pattern[i] == 'h'
    ensures body[8] == '_' && AllDigits(body[..8], 16) && AllDigits(body[9..], 16) <==> Matches(body, pattern)
  {
    hide DigitValue;
    forall i | 0 <= i < |body|
      ensures i < 8 ==> (DigitAt(body[..8], i, 16) <==> CharFits(body[i], pattern[i]))
      ensures i > 8 ==> (DigitAt(body[9..], i - 9, 16) <==> CharFits(body[i], pattern[i]))
    {
    }
    if body[8] == '_' && AllDigits(body[..8], 16) && AllDigits(body[9..], 16) {
      forall i | 0 <= i < |body|
        ensures CharFits(body[i], pattern[i])
      {
        if i < 8 {
          assert DigitAt(body[..8], i, 16);
        } else if i > 8 {
          assert DigitAt(body[9..], i - 9, 16);
        }
      }
    }
    if Matches(body, pattern) {
      assert forall i :: 0 <= i < 8 ==> CharFits(body[i], pattern[i]) && DigitAt(body[..8], i, 16);
      assert forall i :: 0 <= i < |body| - 9 ==> CharFits(body[i + 9], pattern[i + 9]) && DigitAt(body[9..], i, 16);
    }
  }

  /** No string is an identifier of two kinds. */
  lemma KindsAreDisjoint(value: string, a: IdKind, b: IdKind)
    requires IsAdmId(value, a) && IsAdmId(value, b)
    ensures a == b
  {
    var p, q := Prefix(a), Prefix(b);
    assert p[0] == value[0] == q[0] && p[1] == value[1] == q[1] && p[2] == value[2] == q[2];
  }

  lemma IdsAreAsciiWords(value: string, kind: IdKind)
    requires IsAdmId(value, kind)
    ensures IsAscii(value) && value != "" && Trim(value) == value
    ensures forall i :: 0 <= i < |value| ==> value[i] != 0 as char
  {
    var p := |Prefix(kind)|;
    forall i | 0 <= i < |value|
      ensures 0 as char < value[i] < 128 as char && !IsSpace(value[i])
    {
      if i < p {
        assert value[i] == Prefix(kind)[i];
      } else {
        BodyCharacters(value[p..], kind, i - p);
        assert value[i] == value[p..][i - p];
      }
    }
  }

  lemma BodyCharacters(body: string, kind: IdKind, i: nat)
    requires IsIdBody(body, kind) && i < |body|
    ensures 0 as char < body[i] < 128 as char && !IsSpace(body[i])
  {
    if kind == Block || kind == TrackFormat {
      if i < 8 {
        assert DigitAt(body[..8], i, 16);
      } else if i > 8 {
        assert DigitAt(body[9..], i - 9, 16);
      }
    } else {
      assert DigitAt(body, i, 16);
    }
  }

  /** Families whose counters the profile requires to be contiguous. */
  datatype CounterKind = ContentCounter | FormatCounter | UidCounter

  /** The numeric counter field of an identifier, if the field is present and hexadecimal. */
  function Counter(id: string, kind: CounterKind): Option<nat> {
    var (from, to) := match kind
      case ContentCounter => (4, 8)
      case FormatCounter => (7, 11)
      case UidCounter => (4, 12);
    if |id| < to then None else ParseUnsigned(id[from..to], 16, U32_LIMIT)
  }

  const COUNTER_BASE: nat := 0x1001
  const OBJECT_BASE: nat := 0x100B
  const OBJECT_LAST: nat := 0x1080

  /** The type half of a format identifier: DirectSpeakers 1, Objects 3. */
  datatype FormatType = DirectSpeakers | Objects {
    function Label(): string {
      match this
      case DirectSpeakers => "0001"
      case Objects => "0003"
    }

    function Definition(): string {
      match this
      case DirectSpeakers => "DirectSpeakers"
      case Objects => "Objects"
    }
  }

  function FormatBody(t: FormatType, number: nat): string {
    t.Label() + Padded(number, 4, 16)
  }

  lemma FormatBodyFacts(t: FormatType, number: nat)
    requires number < U16_LIMIT
    ensures var s := FormatBody(t, number);
      |s| == 8 && AllDigits(s, 16) && s[..4] == t.Label() && s[4..] == Fixed(number, 4, 16)
  {
    hide Fixed, Value;
    HexField(number, 4);
    assert AllDigits(t.Label(), 16);
    DigitsConcat(t.Label(), Fixed(number, 4, 16), 16);
  }

  function FormatId(kind: IdKind, t: FormatType, number: nat): string {
    Prefix(kind) + FormatBody(t, number)
  }

  function TrackFormatId(t: FormatType, number: nat): string {
    FormatId(TrackFormat, t, number) + "_01"
  }

  function BlockId(t: FormatType, number: nat, blockNumber: nat): string {
    FormatId(Block, t, number) + "_" + Padded(blockNumber, 8, 16)
  }

  function UidOf(number: nat): string {
    Prefix(TrackUid) + Padded(number, 8, 16)
  }

  function ObjectId(number: nat): string {
    Prefix(Object) + Padded(number, 4, 16)
  }

  /** Format identifiers are well formed, carry their number as counter and expose type and number
      at fixed columns. */
  lemma FormatIdFacts(kind: IdKind, t: FormatType, number: nat)
    requires kind == Pack || kind == Channel || kind == Stream
    requires number < U16_LIMIT
    ensures IsAdmId(FormatId(kind, t, number), kind)
    ensures Counter(FormatId(kind, t, number), FormatCounter) == Some(number)
    ensures FormatId(kind, t, number)[3..7] == t.Label()
    ensures FormatId(kind, t, number)[3..11] == FormatBody(t, number)
  {
    hide ParseUnsigned, Fixed, Value;
    var id, body := FormatId(kind, t, number), FormatBody(t, number);
    FormatBodyFacts(t, number);
    IdParts(body, kind);
    assert id[3..11] == body;
    Columns(id, body);
    FixedCounter(number, 4);
  }

  /** The type label and the counter inside the format columns of an identifier. */
  lemma Columns(id: string, body: string)
    requires |id| >= 11 && id[3..11] == body
    ensures id[3..7] == body[..4] && id[7..11] == body[4..]
  {
    SliceOfSlice(id, 3, 11, 0, 4);
    SliceOfSlice(id, 3, 11, 4, 8);
  }

  lemma FixedCounter(number: nat, width: nat)
    requires (width == 4 && number < U16_LIMIT) || (width == 8 && number < U32_LIMIT)
    ensures ParseUnsigned(Fixed(number, width, 16), 16, U32_LIMIT) == Some(number)
    ensures width == 4 ==> ParseUnsigned(Fixed(number, width, 16), 16, U16_LIMIT) == Some(number)
  {
    HexField(number, width);
    ParseDigits(Fixed(number, width, 16), 16, U32_LIMIT);
    if width == 4 { ParseDigits(Fixed(number, width, 16), 16, U16_LIMIT); }
  }

  lemma TrackFormatIdFacts(t: FormatType, number: nat)
    requires number < U16_LIMIT
    ensures IsAdmId(TrackFormatId(t, number), TrackFormat)
    ensures Counter(TrackFormatId(t, number), FormatCounter) == Some(number)
    ensures TrackFormatId(t, number)[3..11] == FormatBody(t, number)
  {
    hide ParseUnsigned, Fixed, Value;
    var id, body, tail := TrackFormatId(t, number), FormatBody(t, number), "_01";
    FormatBodyFacts(t, number);
    assert id == Prefix(TrackFormat) + (body + tail);
    IdParts(body + tail, TrackFormat);
    assert (body + tail)[..8] == body && (body + tail)[9..] == "01";
    assert id[3..11] == body;
    Columns(id, body);
    FixedCounter(number, 4);
  }

  /** A block identifier is well formed exactly when its number fits eight digits. */
  lemma BlockIdSyntax(t: FormatType, number: nat, blockNumber: nat)
    requires number < U16_LIMIT
    ensures IsAdmId(BlockId(t, number, blockNumber), Block) <==> blockNumber < U32_LIMIT
  {
    hide *;
    var body, tail := FormatBody(t, number), Padded(blockNumber, 8, 16);
    FormatBodyFacts(t, number);
    BlockIdIs(t, number, blockNumber);
    IdParts(body + "_" + tail, Block);
    PaddedIsNumeral(blockNumber);
    BlockBody(body, tail);
    BlockDigits(blockNumber);
  }

  lemma BlockIdIs(t: FormatType, number: nat, blockNumber: nat)
    ensures BlockId(t, number, blockNumber) ==
      Prefix(Block) + (FormatBody(t, number) + "_" + Padded(blockNumber, 8, 16))
  {
    hide FormatBody, Padded, Prefix;
    AppendTwice(Prefix(Block), FormatBody(t, number), "_", Padded(blockNumber, 8, 16));
  }

  lemma AppendTwice(a: string, b: string, c: string, d: string)
    ensures (a + b) + c + d == a + (b + c + d)
  {
  }

  lemma PaddedIsNumeral(blockNumber: nat)
    ensures AllDigits(Padded(blockNumber, 8, 16), 16)
  {
    hide AllDigits;
  }

  lemma BlockIdColumns(t: FormatType, number: nat, blockNumber: nat)
    requires number < U16_LIMIT
    ensures |BlockId(t, number, blockNumber)| >= 20
    ensures BlockId(t, number, blockNumber)[3..11] == FormatBody(t, number)
    ensures BlockId(t, number, blockNumber)[12..] == Padded(blockNumber, 8, 16)
  {
    FormatBodyFacts(t, number);
  }

  lemma BlockDigits(blockNumber: nat)
    ensures |Padded(blockNumber, 8, 16)| == 8 <==> blockNumber < U32_LIMIT
  {
    if blockNumber >= U32_LIMIT {
      assert Power(16, 8) == U32_LIMIT by { HexPowers(); }
      NaturalLength(blockNumber, 8, 16);
    } else {
      HexField(blockNumber, 8);
    }
  }

  lemma BlockBody(body: string, tail: string)
    requires |body| == 8 && AllDigits(body, 16) && AllDigits(tail, 16)
    ensures IsIdBody(body + "_" + tail, Block) <==> |tail| == 8
  {
    var rest := body + "_" + tail;
    assert rest[..8] == body && rest[9..] == tail && rest[8] == '_';
  }

  lemma UidFacts(number: nat)
    requires number < U32_LIMIT
    ensures IsAdmId(UidOf(number), TrackUid)
    ensures Counter(UidOf(number), UidCounter) == Some(number)
  {
    hide ParseUnsigned, Fixed, Value;
    var digits := Fixed(number, 8, 16);
    HexField(number, 8);
    IdParts(digits, TrackUid);
    assert UidOf(number)[4..12] == digits;
    FixedCounter(number, 8);
  }

  lemma ObjectIdFacts(number: nat)
    requires number < U16_LIMIT
    ensures IsAdmId(ObjectId(number), Object)
    ensures ObjectId(number)[..3] == Prefix(Object)
    ensures ParseUnsigned(ObjectId(number)[3..], 16, U16_LIMIT) == Some(number)
  {
    HexField(number, 4);
    IdParts(Padded(number, 4, 16), Object);
    FixedCounter(number, 4);
  }
}
