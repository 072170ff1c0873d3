/** A reader of the files the HRTF tool writes: what it gets back is what was written. */
module HrtfReader {
  import opened Wrappers
  import opened Bytes
  import opened HrtfLayout

  /** A value read from the front of some bytes, and the bytes behind it. */
  datatype Read<T> = Read(value: T, rest: seq<byte>)

  // ---------------------------------------------------------------- reading

  function ReadWord(s: seq<byte>): Option<Read<nat>> {
    if |s| < 4 then None else Some(Read(FromWord(s[..4]), s[4..]))
  }

  /** `n` bytes, stored in as many whole words as they need. */
  function ReadBytes(s: seq<byte>, n: nat): Option<Read<seq<byte>>> {
    var stored := (n + 3) / 4 * 4;
    if |s| < stored then None else Some(Read(s[..n], s[stored..]))
  }

  function ReadText(s: seq<byte>): Option<Read<seq<byte>>> {
    var size := ReadWord(s);
    if size.None? then None else ReadBytes(size.value.rest, size.value.value)
  }

  function ReadTag(s: seq<byte>, tag: nat): Option<seq<byte>> {
    var word := ReadWord(s);
    if word.Some? && word.value.value == tag then Some(word.value.rest) else None
  }

  function ReadAttribute(s: seq<byte>): Option<Read<Attribute>> {
    var name := ReadText(s);
    if name.None? then None
    else
      var typed := ReadTag(name.value.rest, 2);
      if typed.None? then None
      else
        var value := ReadText(typed.value);
        if value.None? then None else Some(Read(Attribute(name.value.value, value.value.value), value.value.rest))
  }

  function ReadAttributes(s: seq<byte>, count: nat): Option<Read<seq<Attribute>>>
    decreases count
  {
    if count == 0 then Some(Read([], s))
    else
      var first := ReadAttribute(s);
      if first.None? then None
      else
        var others := ReadAttributes(first.value.rest, count - 1);
        if others.None? then None else Some(Read([first.value.value] + others.value.value, others.value.rest))
  }

  function ReadDimensions(s: seq<byte>, count: nat): Option<Read<seq<Dimension>>>
    decreases count
  {
    if count == 0 then Some(Read([], s))
    else
      var name := ReadText(s);
      if name.None? then None
      else
        var length := ReadWord(name.value.rest);
        if length.None? then None
        else
          var others := ReadDimensions(length.value.rest, count - 1);
          if others.None? then None
          else
            Some(Read([Dimension(name.value.value, length.value.value)] + others.value.value, others.value.rest))
  }

  function ReadWords(s: seq<byte>, count: nat): Option<Read<seq<nat>>>
    decreases count
  {
    if count == 0 then Some(Read([], s))
    else
      var first := ReadWord(s);
      if first.None? then None
      else
        var others := ReadWords(first.value.rest, count - 1);
        if others.None? then None else Some(Read([first.value.value] + others.value.value, others.value.rest))
  }

  /** An attribute list behind its tag and count; a zero word stands for the empty list. */
  function ReadAttributeList(s: seq<byte>): Option<Read<seq<Attribute>>> {
    var tag := ReadWord(s);
    if tag.None? then None
    else if tag.value.value == 0 then Some(Read([], tag.value.rest))
    else if tag.value.value != 12 then None
    else
      var count := ReadWord(tag.value.rest);
      if count.None? then None else ReadAttributes(count.value.rest, count.value.value)
  }

  /** Type, size and place of a variable's data. */
  datatype Placement = Placement(ty: nat, size: nat, begin: nat)

  function ReadPlacement(s: seq<byte>): Option<Read<Placement>> {
    var words := ReadWords(s, 3);
    if words.None? || |words.value.value| != 3 then None
    else
      var ws := words.value.value;
      Some(Read(Placement(ws[0], ws[1], ws[2]), words.value.rest))
  }

  /** A variable whose data stands in `file` where its header says. */
  function ReadVariable(s: seq<byte>, file: seq<byte>): Option<Read<Variable>> {
    var name := ReadText(s);
    if name.None? then None
    else
      var rank := ReadWord(name.value.rest);
      if rank.None? then None
      else
        var dims := ReadWords(rank.value.rest, rank.value.value);
        if dims.None? then None
        else
          var attributes := ReadAttributeList(dims.value.rest);
          if attributes.None? then None
          else
            var place := ReadPlacement(attributes.value.rest);
            if place.None? || place.value.value.begin + place.value.value.size > |file| then None
            else
              var p := place.value.value;
              Some(Read(Variable(name.value.value, dims.value.value, attributes.value.value, p.ty,
                file[p.begin..p.begin + p.size]), place.value.rest))
  }

  function ReadVariables(s: seq<byte>, count: nat, file: seq<byte>): Option<Read<seq<Variable>>>
    decreases count
  {
    if count == 0 then Some(Read([], s))
    else
      var first := ReadVariable(s, file);
      if first.None? then None
      else
        var others := ReadVariables(first.value.rest, count - 1, file);
        if others.None? then None else Some(Read([first.value.value] + others.value.value, others.value.rest))
  }

  function ReadDimensionList(s: seq<byte>): Option<Read<seq<Dimension>>> {
    var tagged := ReadTag(s, 10);
    if tagged.None? then None
    else
      var count := ReadWord(tagged.value);
      if count.None? then None else ReadDimensions(count.value.rest, count.value.value)
  }

  function ReadVariableList(s: seq<byte>, file: seq<byte>): Option<Read<seq<Variable>>> {
    var tagged := ReadTag(s, 11);
    if tagged.None? then None
    else
      var count := ReadWord(tagged.value);
      if count.None? then None else ReadVariables(count.value.rest, count.value.value, file)
  }

  /** A whole file: the signature, no records, and the three lists. */
  function ReadFile(file: seq<byte>): Option<(Front, seq<Variable>)> {
    if |file| < 4 || file[..4] != [0x43, 0x44, 0x46, 1] then None
    else
      var records := ReadTag(file[4..], 0);
      if records.None? then None
      else
        var dimensions := ReadDimensionList(records.value);
        if dimensions.None? then None
        else
          var attributes := ReadAttributeList(dimensions.value.rest);
          if attributes.None? then None
          else
            var variables := ReadVariableList(attributes.value.rest, file);
            if variables.None? then None
            else Some((Front(dimensions.value.value, attributes.value.value), variables.value.value))
  }

  // ---------------------------------------------------------------- pieces read back

  lemma WordReads(n: nat, rest: seq<byte>)
    requires n < U32_LIMIT
    ensures ReadWord(Word(n) + rest) == Some(Read(n, rest))
  {
    hide Word, FromWord;
    HrtfLayout.WordRoundTrip(n);
    var s := Word(n) + rest;
    assert s[..4] == Word(n) && s[4..] == rest;
  }

  lemma TagReads(n: nat, rest: seq<byte>)
    requires n < U32_LIMIT
    ensures ReadTag(Word(n) + rest, n) == Some(rest)
  {
    hide Word, ReadWord;
    WordReads(n, rest);
  }

  lemma PaddedLength(n: nat)
    ensures n + PadLength(n) == (n + 3) / 4 * 4
  {
    assert n == n / 4 * 4 + n % 4;
  }

  lemma PadShape(data: seq<byte>)
    ensures |Pad4(data)| == |data| + PadLength(|data|) && Pad4(data)[..|data|] == data
  {
    hide PadLength;
  }

  lemma BytesRead(data: seq<byte>, rest: seq<byte>)
    ensures ReadBytes(Pad4(data) + rest, |data|) == Some(Read(data, rest))
  {
    PaddedLength(|data|);
    PadShape(data);
    hide Pad4, PadLength;
    var s := Pad4(data) + rest;
    assert s[..|data|] == Pad4(data)[..|data|] && s[|Pad4(data)|..] == rest;
  }

  lemma TextReads(raw: seq<byte>, rest: seq<byte>)
    requires Short(raw)
    ensures ReadText(NcString(raw) + rest) == Some(Read(raw, rest))
  {
    hide Word, ReadWord, Pad4, ReadBytes;
    assert NcString(raw) + rest == Word(|raw|) + (Pad4(raw) + rest);
    WordReads(|raw|, Pad4(raw) + rest);
    BytesRead(raw, rest);
  }

  lemma AttributeReads(a: Attribute, rest: seq<byte>)
    requires a.Fits()
    ensures ReadAttribute(a.Encode() + rest) == Some(Read(a, rest))
  {
    hide Word, ReadText, ReadTag, Pad4;
    var value := NcString(a.value) + rest;
    assert a.Encode() == NcString(a.name) + Word(2) + NcString(a.value);
    assert a.Encode() + rest == NcString(a.name) + (Word(2) + value);
    hide NcString;
    TextReads(a.name, Word(2) + value);
    TagReads(2, value);
    TextReads(a.value, rest);
  }

  lemma EncodingStep(attributes: seq<Attribute>)
    requires AttributesFit(attributes) && attributes != []
    ensures AttributesFit(attributes[..|attributes| - 1]) && AttributesFit(attributes[1..])
    ensures attributes[0].Fits() && attributes[|attributes| - 1].Fits()
    ensures EncodeAttributes(attributes) ==
      EncodeAttributes(attributes[..|attributes| - 1]) + attributes[|attributes| - 1].Encode()
  {
    hide Attribute.Encode, Attribute.Fits;
  }

  /** The encoding of a list starts with that of its first element. */
  lemma {:induction false} AttributesStep(attributes: seq<Attribute>)
    requires AttributesFit(attributes) && attributes != []
    ensures AttributesFit(attributes[1..]) && attributes[0].Fits()
    ensures EncodeAttributes(attributes) == attributes[0].Encode() + EncodeAttributes(attributes[1..])
  {
    hide Attribute.Encode, Attribute.Fits, EncodeAttributes;
    var n := |attributes| - 1;
    var front, rest := attributes[..n], attributes[1..];
    EncodingStep(attributes);
    if n == 0 {
      NoAttributes();
      assert front == [] && rest == [];
    } else {
      AttributesStep(front);
      EncodingStep(rest);
      assert front[1..] == rest[..n - 1] && rest[n - 1] == attributes[n] && front[0] == attributes[0];
    }
  }

  lemma {:induction false} AttributesRead(attributes: seq<Attribute>, rest: seq<byte>)
    requires AttributesFit(attributes)
    ensures ReadAttributes(EncodeAttributes(attributes) + rest, |attributes|) == Some(Read(attributes, rest))
  {
    hide Attribute.Encode, Attribute.Fits, ReadAttribute, EncodeAttributes;
    if attributes == [] {
      NoAttributes();
      assert [] + rest == rest;
    } else {
      var first, others := attributes[0], attributes[1..];
      AttributesStep(attributes);
      var more := EncodeAttributes(others) + rest;
      assert EncodeAttributes(attributes) + rest == first.Encode() + more;
      AttributeReads(first, more);
      AttributesRead(others, rest);
      assert attributes == [first] + others;
    }
  }

  lemma NoAttributes()
    ensures AttributesFit([]) && EncodeAttributes([]) == []
  {
  }

  lemma NoDimensions(ds: seq<Dimension>)
    requires ds == []
    ensures DimensionBytes(ds) == []
  {
  }

  lemma LastDimension(ds: seq<Dimension>)
    requires ds != [] && forall i :: 0 <= i < |ds| ==> ds[i].Fits()
    ensures var n := |ds| - 1;
      && ds[n].Fits() && (forall i :: 0 <= i < n ==> ds[..n][i].Fits())
      && DimensionBytes(ds) == DimensionBytes(ds[..n]) + NcString(ds[n].name) + Word(ds[n].length)
  {
    hide Word, NcString;
  }

  lemma {:induction false} DimensionsStep(ds: seq<Dimension>)
    requires ds != [] && forall i :: 0 <= i < |ds| ==> ds[i].Fits()
    ensures DimensionBytes(ds) == NcString(ds[0].name) + Word(ds[0].length) + DimensionBytes(ds[1..])
  {
    hide Word, NcString, DimensionBytes;
    var n := |ds| - 1;
    var front, rest := ds[..n], ds[1..];
    LastDimension(ds);
    if n == 0 {
      NoDimensions(front);
      assert front == rest;
    } else {
      DimensionsStep(front);
      LastDimension(rest);
      assert front[1..] == rest[..n - 1] && rest[n - 1] == ds[n] && front[0] == ds[0];
      var first, middle := NcString(ds[0].name) + Word(ds[0].length), DimensionBytes(front[1..]);
      var name, length := NcString(ds[n].name), Word(ds[n].length);
      assert (first + middle) + name + length == first + (middle + name + length);
    }
  }

  lemma {:induction false} DimensionsRead(ds: seq<Dimension>, rest: seq<byte>)
    requires forall i :: 0 <= i < |ds| ==> ds[i].Fits()
    ensures ReadDimensions(DimensionBytes(ds) + rest, |ds|) == Some(Read(ds, rest))
  {
    hide Word, NcString, ReadText, ReadWord;
    if ds == [] {
      assert DimensionBytes(ds) + rest == rest;
    } else {
      var first, others := ds[0], ds[1..];
      DimensionsStep(ds);
      hide DimensionBytes;
      var more := DimensionBytes(others) + rest;
      assert DimensionBytes(ds) + rest == NcString(first.name) + (Word(first.length) + more);
      TextReads(first.name, Word(first.length) + more);
      WordReads(first.length, more);
      DimensionsRead(others, rest);
      assert ds == [first] + others;
    }
  }

  lemma NoWords(ns: seq<nat>)
    requires ns == []
    ensures Words(ns) == []
  {
  }

  lemma LastOfWords(ns: seq<nat>)
    requires ns != [] && forall i :: 0 <= i < |ns| ==> ns[i] < U32_LIMIT
    ensures Words(ns) == Words(ns[..|ns| - 1]) + Word(ns[|ns| - 1])
  {
    hide Word;
  }

  lemma {:induction false} WordsStep(ns: seq<nat>)
    requires ns != [] && forall i :: 0 <= i < |ns| ==> ns[i] < U32_LIMIT
    ensures Words(ns) == Word(ns[0]) + Words(ns[1..])
  {
    hide Word, Words;
    var n := |ns| - 1;
    var front, rest := ns[..n], ns[1..];
    LastOfWords(ns);
    if n == 0 {
      NoWords(front);
      assert front == rest;
    } else {
      WordsStep(front);
      LastOfWords(rest);
      assert front[1..] == rest[..n - 1] && rest[n - 1] == ns[n] && front[0] == ns[0];
    }
  }

  lemma {:induction false} WordsRead(ns: seq<nat>, rest: seq<byte>)
    requires forall i :: 0 <= i < |ns| ==> ns[i] < U32_LIMIT
    ensures ReadWords(Words(ns) + rest, |ns|) == Some(Read(ns, rest))
  {
    hide Word, ReadWord;
    if ns == [] {
      assert Words(ns) + rest == rest;
    } else {
      var others := ns[1..];
      WordsStep(ns);
      hide Words;
      var more := Words(others) + rest;
      assert Words(ns) + rest == Word(ns[0]) + more;
      WordReads(ns[0], more);
      WordsRead(others, rest);
      assert ns == [ns[0]] + others;
    }
  }

  // ---------------------------------------------------------------- lists and variables

  /** The stored form of an attribute list. */
  function AttributeList(attributes: seq<Attribute>): seq<byte>
    requires AttributesFit(attributes)
  {
    Word(12) + Word(|attributes|) + EncodeAttributes(attributes)
  }

  lemma AttributeListReads(attributes: seq<Attribute>, rest: seq<byte>)
    requires AttributesFit(attributes)
    ensures ReadAttributeList(AttributeList(attributes) + rest) == Some(Read(attributes, rest))
  {
    hide Word, ReadWord, EncodeAttributes, ReadAttributes, Attribute.Fits;
    var more := EncodeAttributes(attributes) + rest;
    assert AttributeList(attributes) + rest == Word(12) + (Word(|attributes|) + more);
    WordReads(12, Word(|attributes|) + more);
    WordReads(|attributes|, more);
    AttributesRead(attributes, rest);
  }

  lemma NoListReads(rest: seq<byte>)
    ensures ReadAttributeList(Word(0) + rest) == Some(Read([], rest))
  {
    hide Word, ReadWord;
    WordReads(0, rest);
  }

  lemma PlacementReads(ty: nat, size: nat, begin: nat, rest: seq<byte>)
    requires ty < U32_LIMIT && size < U32_LIMIT && begin < U32_LIMIT
    ensures ReadPlacement(Word(ty) + Word(size) + Word(begin) + rest) == Some(Read(Placement(ty, size, begin), rest))
  {
    hide Word, ReadWords;
    var ns := [ty, size, begin];
    assert ns[..2] == [ty, size] && ns[..2][..1] == [ty] && [ty][..0] == [];
    assert Words([ty]) == [] + Word(ty) == Word(ty);
    assert Words(ns[..2]) == Words([ty]) + Word(size);
    assert Words(ns) == Word(ty) + Word(size) + Word(begin);
    WordsRead(ns, rest);
  }

  function AttributePart(v: Variable): seq<byte>
    requires v.Fits()
  {
    if v.attributes != [] then AttributeList(v.attributes) else Word(0)
  }

  lemma AttributePartReads(v: Variable, rest: seq<byte>)
    requires v.Fits()
    ensures ReadAttributeList(AttributePart(v) + rest) == Some(Read(v.attributes, rest))
  {
    hide Word, ReadAttributeList, AttributeList, AttributesFit;
    if v.attributes != [] {
      AttributeListReads(v.attributes, rest);
    } else {
      NoListReads(rest);
    }
  }

  lemma HeaderParts(v: Variable, begin: nat, rest: seq<byte>)
    requires v.Fits() && begin < U32_LIMIT
    ensures NcVar(v, begin) + rest == NcString(v.name) + (Word(|v.dims|) + (Words(v.dims) + (AttributePart(v) +
      (Word(v.ty) + Word(|v.data|) + Word(begin) + rest))))
  {
    hide Word, Words, NcString, EncodeAttributes;
    VarFrontIs(v);
    hide AttributePart, VarFront;
    assert NcVar(v, begin) == VarFront(v) + Word(begin);
    Regroup(NcString(v.name), Word(|v.dims|), Words(v.dims), AttributePart(v), Word(v.ty), Word(|v.data|), Word(begin),
      rest);
  }

  lemma VarFrontIs(v: Variable)
    requires v.Fits()
    ensures VarFront(v) == NcString(v.name) + Word(|v.dims|) + Words(v.dims) + AttributePart(v) +
      Word(v.ty) + Word(|v.data|)
  {
    hide Word, Words, NcString, EncodeAttributes;
  }

  lemma Regroup(a: seq<byte>, b: seq<byte>, c: seq<byte>, d: seq<byte>, e: seq<byte>, f: seq<byte>, g: seq<byte>,
      rest: seq<byte>)
    ensures (a + b + c + d + e + f) + g + rest == a + (b + (c + (d + (e + f + g + rest))))
  {
  }

  lemma VariableReads(v: Variable, begin: nat, file: seq<byte>, rest: seq<byte>)
    requires v.Fits() && begin < U32_LIMIT
    requires begin + |v.data| <= |file| && file[begin..begin + |v.data|] == v.data
    ensures ReadVariable(NcVar(v, begin) + rest, file) == Some(Read(v, rest))
  {
    hide Word, Words, NcString, AttributePart, NcVar, ReadText, ReadWord, ReadWords, ReadAttributeList, ReadPlacement,
      AttributesFit;
    var place := Word(v.ty) + Word(|v.data|) + Word(begin) + rest;
    var attributes := AttributePart(v) + place;
    var dims := Words(v.dims) + attributes;
    HeaderParts(v, begin, rest);
    TextReads(v.name, Word(|v.dims|) + dims);
    WordReads(|v.dims|, dims);
    WordsRead(v.dims, attributes);
    AttributePartReads(v, place);
    PlacementReads(v.ty, |v.data|, begin, rest);
  }

  /** The file holds the data of these variables at these places. */
  ghost predicate Holds(file: seq<byte>, variables: seq<Variable>, begins: seq<nat>) {
    && |begins| == |variables|
    && forall k :: 0 <= k < |variables| ==>
      begins[k] + |variables[k].data| <= |file| &&
        file[begins[k]..begins[k] + |variables[k].data|] == variables[k].data
  }

  lemma HeadersStep(variables: seq<Variable>, begins: seq<nat>)
    requires AllFit(variables) && OffsetsFit(begins) && |begins| == |variables| > 0
    ensures variables[0].Fits() && AllFit(variables[1..]) && OffsetsFit(begins[1..])
    ensures Flatten(VarHeaders(variables, begins)) ==
      NcVar(variables[0], begins[0]) + Flatten(VarHeaders(variables[1..], begins[1..]))
  {
    hide NcVar, Variable.Fits;
    var parts := VarHeaders(variables, begins);
    assert parts[1..] == VarHeaders(variables[1..], begins[1..]) && parts[0] == NcVar(variables[0], begins[0]);
    hide VarHeaders;
  }

  lemma HoldsStep(file: seq<byte>, variables: seq<Variable>, begins: seq<nat>)
    requires Holds(file, variables, begins) && variables != []
    ensures |begins| == |variables| && Holds(file, variables[1..], begins[1..])
    ensures begins[0] + |variables[0].data| <= |file| &&
      file[begins[0]..begins[0] + |variables[0].data|] == variables[0].data
  {
  }

  lemma ReadStep(s: seq<byte>, more: seq<byte>, count: nat, file: seq<byte>, v: Variable, others: seq<Variable>,
      rest: seq<byte>)
    requires ReadVariable(s, file) == Some(Read(v, more))
    requires ReadVariables(more, count, file) == Some(Read(others, rest))
    ensures ReadVariables(s, count + 1, file) == Some(Read([v] + others, rest))
  {
    hide ReadVariable;
  }

  lemma NoVariables(variables: seq<Variable>, begins: seq<nat>, file: seq<byte>, rest: seq<byte>)
    requires AllFit(variables) && OffsetsFit(begins) && |begins| == |variables| == 0
    ensures ReadVariables(Flatten(VarHeaders(variables, begins)) + rest, 0, file) == Some(Read(variables, rest))
  {
    hide NcVar, ReadVariable, Variable.Fits;
    assert Flatten(VarHeaders(variables, begins)) + rest == rest;
  }

  lemma {:induction false} VariablesRead(variables: seq<Variable>, begins: seq<nat>, file: seq<byte>, rest: seq<byte>)
    requires AllFit(variables) && OffsetsFit(begins) && |begins| == |variables| && Holds(file, variables, begins)
    ensures ReadVariables(Flatten(VarHeaders(variables, begins)) + rest, |variables|, file) ==
      Some(Read(variables, rest))
  {
    hide *;
    if variables == [] {
      NoVariables(variables, begins, file, rest);
    } else {
      var v, others := variables[0], variables[1..];
      HeadersStep(variables, begins);
      HoldsStep(file, variables, begins);
      OffsetFits(begins);
      var headers := Flatten(VarHeaders(others, begins[1..]));
      assert NcVar(v, begins[0]) + headers + rest == NcVar(v, begins[0]) + (headers + rest);
      VariableReads(v, begins[0], file, headers + rest);
      VariablesRead(others, begins[1..], file, rest);
      assert variables == [v] + others;
      ReadStep(Flatten(VarHeaders(variables, begins)) + rest, headers + rest, |others|, file, v, others, rest);
    }
  }

  lemma OffsetFits(begins: seq<nat>)
    requires OffsetsFit(begins) && begins != []
    ensures begins[0] < U32_LIMIT
  {
  }

  // ---------------------------------------------------------------- whole files

  lemma FrontParts(front: Front, count: nat, rest: seq<byte>)
    requires front.Fits() && count < U32_LIMIT
    ensures FrontBytes(front, count) + rest ==
      [0x43, 0x44, 0x46, 1] + (Word(0) + (Word(10) + (Word(|front.dimensions|) + (DimensionBytes(front.dimensions) +
        (AttributeList(front.attributes) + (Word(11) + (Word(count) + rest)))))))
  {
    hide Word, DimensionBytes, EncodeAttributes;
    var magic: seq<byte> := [0x43, 0x44, 0x46, 1];
    var a, b, c, d := Word(0), Word(10), Word(|front.dimensions|), DimensionBytes(front.dimensions);
    var e, f, g := Word(12), Word(|front.attributes|), EncodeAttributes(front.attributes);
    assert FrontBytes(front, count) == magic + a + b + c + d + e + f + g + Word(11) + Word(count);
    assert AttributeList(front.attributes) == e + f + g;
    RegroupFront(magic, a, b, c, d, e, f, g, Word(11), Word(count), rest);
  }

  lemma RegroupFront(magic: seq<byte>, a: seq<byte>, b: seq<byte>, c: seq<byte>, d: seq<byte>, e: seq<byte>,
      f: seq<byte>, g: seq<byte>, h: seq<byte>, i: seq<byte>, rest: seq<byte>)
    ensures (magic + a + b + c + d + e + f + g + h + i) + rest ==
      magic + (a + (b + (c + (d + ((e + f + g) + (h + (i + rest)))))))
  {
  }

  lemma DimensionListReads(ds: seq<Dimension>, rest: seq<byte>)
    requires |ds| < U32_LIMIT && forall i :: 0 <= i < |ds| ==> ds[i].Fits()
    ensures ReadDimensionList(Word(10) + (Word(|ds|) + (DimensionBytes(ds) + rest))) == Some(Read(ds, rest))
  {
    hide Word, ReadWord, ReadTag, DimensionBytes, ReadDimensions, Dimension.Fits;
    TagReads(10, Word(|ds|) + (DimensionBytes(ds) + rest));
    WordReads(|ds|, DimensionBytes(ds) + rest);
    DimensionsRead(ds, rest);
  }

  lemma VariableListReads(variables: seq<Variable>, begins: seq<nat>, file: seq<byte>, rest: seq<byte>)
    requires |variables| < U32_LIMIT && AllFit(variables) && OffsetsFit(begins) && |begins| == |variables|
    requires Holds(file, variables, begins)
    ensures ReadVariableList(Word(11) + (Word(|variables|) + (Flatten(VarHeaders(variables, begins)) + rest)), file) ==
      Some(Read(variables, rest))
  {
    hide Word, ReadWord, ReadTag, VarHeaders, ReadVariables, Flatten, AllFit;
    var headers := Flatten(VarHeaders(variables, begins)) + rest;
    TagReads(11, Word(|variables|) + headers);
    WordReads(|variables|, headers);
    VariablesRead(variables, begins, file, rest);
  }

  lemma SignatureReads(file: seq<byte>, rest: seq<byte>)
    requires file == [0x43, 0x44, 0x46, 1] + rest
    ensures |file| >= 4 && file[..4] == [0x43, 0x44, 0x46, 1] && file[4..] == rest
  {
  }

  /** A written file reads back as what was written: every name, dimension and attribute, and every variable with
      its data. */
  lemma FileReadsBack(front: Front, variables: seq<Variable>, file: seq<byte>)
    requires Packable(front, variables) && LaidOut(front, variables, file)
    ensures ReadFile(file) == Some((front, variables))
  {
    var begins := Begins(variables, HeaderSize(front, variables));
    Unpacked(front, variables, file);
    hide *;
    var data := file[HeaderSize(front, variables)..];
    var headers := Flatten(VarHeaders(variables, begins)) + data;
    var list := Word(11) + (Word(|variables|) + headers);
    var attributes := AttributeList(front.attributes) + list;
    var dimensions := Word(10) + (Word(|front.dimensions|) + (DimensionBytes(front.dimensions) + attributes));
    FrontParts(front, |variables|, headers);
    SignatureReads(file, Word(0) + dimensions);
    TagReads(0, dimensions);
    DimensionListReads(front.dimensions, attributes);
    AttributeListReads(front.attributes, list);
    VariableListReads(variables, begins, file, data);
    FileFrom(file, dimensions, attributes, list, front, variables, data);
  }

  lemma Unpacked(front: Front, variables: seq<Variable>, file: seq<byte>)
    requires Packable(front, variables) && LaidOut(front, variables, file)
    ensures var size := HeaderSize(front, variables);
      var begins := Begins(variables, size);
      && front.Fits() && |front.dimensions| < U32_LIMIT && AttributesFit(front.attributes) && 11 < U32_LIMIT
      && (forall i :: 0 <= i < |front.dimensions| ==> front.dimensions[i].Fits())
      && |variables| < U32_LIMIT && AllFit(variables) && OffsetsFit(begins) && Holds(file, variables, begins)
      && |begins| == |variables| && size <= |file|
      && file == FrontBytes(front, |variables|) + (Flatten(VarHeaders(variables, begins)) + file[size..])
  {
    hide FrontBytes, VarHeaders, Flatten, Begin, HeaderSize, Attribute.Fits, Variable.Fits, Dimension.Fits;
    var size := HeaderSize(front, variables);
    var begins := Begins(variables, size);
    var a, b := FrontBytes(front, |variables|), Flatten(VarHeaders(variables, begins));
    assert file == file[..size] + file[size..];
    assert (a + b) + file[size..] == a + (b + file[size..]);
    forall k | 0 <= k < |variables|
      ensures begins[k] + |variables[k].data| <= |file| &&
        file[begins[k]..begins[k] + |variables[k].data|] == variables[k].data
    {
      assert DataAt(variables, size, file, k);
    }
  }

  lemma FileFrom(file: seq<byte>, dimensions: seq<byte>, attributes: seq<byte>, list: seq<byte>, front: Front,
      variables: seq<Variable>, data: seq<byte>)
    requires |file| >= 4 && file[..4] == [0x43, 0x44, 0x46, 1] && ReadTag(file[4..], 0) == Some(dimensions)
    requires ReadDimensionList(dimensions) == Some(Read(front.dimensions, attributes))
    requires ReadAttributeList(attributes) == Some(Read(front.attributes, list))
    requires ReadVariableList(list, file) == Some(Read(variables, data))
    ensures ReadFile(file) == Some((front, variables))
  {
    hide ReadTag, ReadDimensionList, ReadAttributeList, ReadVariableList;
  }
}
