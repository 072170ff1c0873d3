/** What the searches through a document find, told through its elements. */
module AdmSearches {
  import opened Wrappers
  import opened Text
  import opened AdmIds
  import opened AdmTimes
  import opened AdmDocument
  import opened AdmDocumentCheck
  import opened AdmDocumentSections

  // ---------------------------------------------------------------- everywhere

  /** All elements of a forest, in document order. */
  function Everything(es: seq<Element>): seq<Element> {
    if es == [] then [] else [es[0]] + Everything(es[0].children) + Everything(es[1..])
  }

  lemma EverythingStep(es: seq<Element>)
    ensures es == [] ==> Everything(es) == []
    ensures es != [] ==> Everything(es) == [es[0]] + Everything(es[0].children) + Everything(es[1..])
  {
  }

  /** A search for a tag selects from all elements those with the tag, keeping their order. */
  lemma {:induction false} FoundMeans(es: seq<Element>, tag: Tag)
    ensures Found(es, tag) == Named(Everything(es), tag)
  {
    hide *;
    EverythingStep(es);
    FoundSteps(es, tag);
    NamedStep(Everything(es), tag);
    NamedStep(es, tag);
    if es != [] {
      FoundMeans(es[0].children, tag);
      FoundMeans(es[1..], tag);
      var inside, rest := Everything(es[0].children), Everything(es[1..]);
      NamedAppend([es[0]] + inside, rest, tag);
      NamedAppend([es[0]], inside, tag);
      NamedOne(es[0], tag);
    }
  }

  lemma FoundSteps(es: seq<Element>, tag: Tag)
    ensures es == [] ==> Found(es, tag) == []
    ensures es != [] ==>
      Found(es, tag) ==
        (if es[0].tag == tag then [es[0]] else []) + Found(es[0].children, tag) + Found(es[1..], tag)
  {
  }

  lemma NamedOne(e: Element, tag: Tag)
    ensures Named([e], tag) == if e.tag == tag then [e] else []
  {
    assert [e][1..] == [];
  }

  /** The elements of an element's children are among those of the element's own forest. */
  lemma {:induction false} ChildrenAreInside(es: seq<Element>, e: Element, c: Element)
    requires e in Everything(es) && c in e.children
    ensures c in Everything(es)
  {
    if es != [] {
      if e == es[0] {
        TopIsInside(e.children, c);
      } else if e in Everything(es[0].children) {
        ChildrenAreInside(es[0].children, e, c);
      } else {
        ChildrenAreInside(es[1..], e, c);
      }
    }
  }

  lemma {:induction false} TopIsInside(es: seq<Element>, e: Element)
    requires e in es
    ensures e in Everything(es)
  {
    if e != es[0] {
      TopIsInside(es[1..], e);
    }
  }

  lemma {:induction false} InsideIsInside(es: seq<Element>, e: Element, x: Element)
    requires e in Everything(es) && x in Everything(e.children)
    ensures x in Everything(es)
  {
    if es != [] && e != es[0] {
      if e in Everything(es[0].children) {
        InsideIsInside(es[0].children, e, x);
      } else {
        InsideIsInside(es[1..], e, x);
      }
    }
  }

  // ---------------------------------------------------------------- children

  lemma {:induction false} NamedMeans(es: seq<Element>, tag: Tag, e: Element)
    ensures e in Named(es, tag) <==> e in es && e.tag == tag
  {
    if es != [] {
      NamedMeans(es[1..], tag, e);
    }
  }

  /** Where the children with a tag stand. */
  function Places(es: seq<Element>, tag: Tag): set<nat> {
    set i: nat | i < |es| && es[i].tag == tag
  }

  lemma {:induction false} NamedCount(es: seq<Element>, tag: Tag)
    ensures |Named(es, tag)| == |Places(es, tag)|
  {
    hide *;
    NamedStep(es, tag);
    PlacesStep(es, tag);
    if es != [] {
      var n := |es| - 1;
      assert es == es[..n] + [es[n]];
      NamedCount(es[..n], tag);
      NamedAppend(es[..n], [es[n]], tag);
      NamedOne(es[n], tag);
    }
  }

  lemma PlacesStep(es: seq<Element>, tag: Tag)
    ensures es == [] ==> |Places(es, tag)| == 0
    ensures es != [] ==>
      |Places(es, tag)| == |Places(es[..|es| - 1], tag)| + if es[|es| - 1].tag == tag then 1 else 0
  {
    hide Places;
    forall i: nat
      ensures i in Places(es, tag) <==> i < |es| && es[i].tag == tag
    {
      PlaceMeans(es, tag, i);
    }
    if es != [] {
      var n := |es| - 1;
      forall i: nat
        ensures i in Places(es[..n], tag) <==> i < n && es[i].tag == tag
      {
        PlaceMeans(es[..n], tag, i);
      }
      Grows(Places(es[..n], tag), Places(es, tag), n, es[n].tag == tag);
    }
  }

  lemma PlaceMeans(es: seq<Element>, tag: Tag, i: nat)
    ensures i in Places(es, tag) <==> i < |es| && es[i].tag == tag
  {
  }

  lemma Grows(before: set<nat>, after: set<nat>, n: nat, more: bool)
    requires n !in before && forall i: nat :: i in after <==> i in before || (more && i == n)
    ensures |after| == |before| + if more then 1 else 0
  {
    assert after == before + if more then {n} else {};
  }

  predicate NoneBefore(es: seq<Element>, tag: Tag, i: nat) {
    forall j :: 0 <= j < i && j < |es| ==> es[j].tag != tag
  }

  /** `c` is the first child with the tag. */
  ghost predicate FirstChild(e: Element, tag: Tag, c: Element) {
    exists i: nat :: i < |e.children| && e.children[i] == c && c.tag == tag && NoneBefore(e.children, tag, i)
  }

  /** `c` is the only child with the tag. */
  ghost predicate OnlyChild(e: Element, tag: Tag, c: Element) {
    c in e.children && c.tag == tag && |Places(e.children, tag)| == 1
  }

  lemma NoneBeforeStep(es: seq<Element>, tag: Tag, i: nat)
    requires es != []
    ensures NoneBefore(es, tag, 0)
    ensures NoneBefore(es, tag, i + 1) <==> es[0].tag != tag && NoneBefore(es[1..], tag, i)
  {
    var rest := es[1..];
    assert forall j :: 0 < j < |es| ==> es[j] == rest[j - 1];
    assert forall j :: 0 <= j < |rest| ==> rest[j] == es[j + 1];
  }

  /** The place of the `k`-th child with the tag. */
  lemma {:induction false} NamedPlace(es: seq<Element>, tag: Tag, k: nat) returns (i: nat)
    requires k < |Named(es, tag)|
    ensures i < |es| && es[i] == Named(es, tag)[k] && es[i].tag == tag
    ensures k == 0 <==> NoneBefore(es, tag, i)
  {
    hide Named, NoneBefore;
    NamedStep(es, tag);
    NoneBeforeStep(es, tag, 0);
    if es[0].tag == tag && k == 0 {
      i := 0;
    } else {
      var j := NamedPlace(es[1..], tag, if es[0].tag == tag then k - 1 else k);
      i := j + 1;
      NoneBeforeStep(es, tag, j);
    }
  }

  /** A child with the tag is found, as number zero exactly when none is before it. */
  lemma {:induction false} NamedRank(es: seq<Element>, tag: Tag, i: nat) returns (k: nat)
    requires i < |es| && es[i].tag == tag
    ensures k < |Named(es, tag)| && Named(es, tag)[k] == es[i]
    ensures k == 0 <==> NoneBefore(es, tag, i)
  {
    hide Named, NoneBefore;
    NamedStep(es, tag);
    NoneBeforeStep(es, tag, 0);
    if i == 0 {
      k := 0;
    } else {
      NoneBeforeStep(es, tag, i - 1);
      var j := NamedRank(es[1..], tag, i - 1);
      k := if es[0].tag == tag then j + 1 else j;
    }
  }

  lemma FirstMeans(e: Element, tag: Tag, c: Element)
    ensures FirstChild(e, tag, c) <==> Named(e.children, tag) != [] && Named(e.children, tag)[0] == c
  {
    hide Named, NoneBefore;
    if FirstChild(e, tag, c) {
      var i: nat :| i < |e.children| && e.children[i] == c && c.tag == tag && NoneBefore(e.children, tag, i);
      var k := NamedRank(e.children, tag, i);
    }
    if Named(e.children, tag) != [] && Named(e.children, tag)[0] == c {
      var i := NamedPlace(e.children, tag, 0);
    }
  }

  lemma OnlyMeans(e: Element, tag: Tag, c: Element)
    ensures OnlyChild(e, tag, c) <==> Named(e.children, tag) == [c]
  {
    hide Named, Places;
    var named := Named(e.children, tag);
    NamedCount(e.children, tag);
    NamedMeans(e.children, tag, c);
    if |named| == 1 {
      assert named == [named[0]];
    }
  }

  lemma EmptyMeans(es: seq<Element>, tag: Tag)
    ensures Named(es, tag) == [] <==> NoneBefore(es, tag, |es|)
  {
    hide Named;
    if i: nat :| i < |es| && es[i].tag == tag {
      var k := NamedRank(es, tag, i);
    }
    if Named(es, tag) != [] {
      var i := NamedPlace(es, tag, 0);
    }
  }

  // ---------------------------------------------------------------- references

  /** `c` refers to `text`: its own text, without the white space around it. */
  predicate IsRef(c: Element, tag: Tag, text: string) {
    c.tag == tag && c.text.Some? && Trim(c.text.value) == text && text != ""
  }

  predicate AnyRef(c: Element, tag: Tag) {
    c.tag == tag && c.text.Some? && Trim(c.text.value) != ""
  }

  ghost predicate Refers(e: Element, tag: Tag, text: string) {
    exists c :: c in e.children && IsRef(c, tag, text)
  }

  ghost predicate RefersOnly(e: Element, tag: Tag, text: string) {
    Refers(e, tag, text) && |RefPlaces(e.children, tag)| == 1
  }

  /** Where the references with a tag stand. */
  function RefPlaces(es: seq<Element>, tag: Tag): set<nat> {
    set i: nat | i < |es| && AnyRef(es[i], tag)
  }

  lemma RefStep(es: seq<Element>, tag: Tag)
    ensures es == [] ==> RefValues(es, tag) == []
    ensures es != [] ==>
      RefValues(es, tag) ==
        (if AnyRef(es[0], tag) then [Trim(es[0].text.value)] else []) + RefValues(es[1..], tag)
  {
    hide Trim;
  }

  lemma {:induction false} RefAppend(a: seq<Element>, b: seq<Element>, tag: Tag)
    ensures RefValues(a + b, tag) == RefValues(a, tag) + RefValues(b, tag)
  {
    hide RefValues, AnyRef, Trim;
    RefStep(a, tag);
    if a == [] {
      assert a + b == b;
    } else {
      RefStep(a + b, tag);
      assert (a + b)[1..] == a[1..] + b;
      RefAppend(a[1..], b, tag);
    }
  }

  lemma {:induction false} RefIn(es: seq<Element>, tag: Tag, text: string)
    ensures text in RefValues(es, tag) <==> exists c :: c in es && IsRef(c, tag, text)
  {
    hide RefValues, AnyRef, IsRef;
    RefStep(es, tag);
    if es != [] {
      RefIn(es[1..], tag, text);
      OneRef(es[0], tag, text);
      assert forall c :: c in es <==> c == es[0] || c in es[1..];
    }
  }

  lemma OneRef(c: Element, tag: Tag, text: string)
    ensures AnyRef(c, tag) ==> c.text.Some?
    ensures IsRef(c, tag, text) <==> AnyRef(c, tag) && Trim(c.text.value) == text
  {
  }

  /** A reference search lists exactly the texts the children refer to. */
  lemma RefMeans(e: Element, tag: Tag, text: string)
    ensures text in RefValues(e.children, tag) <==> Refers(e, tag, text)
  {
    RefIn(e.children, tag, text);
  }

  lemma {:induction false} RefCount(es: seq<Element>, tag: Tag)
    ensures |RefValues(es, tag)| == |RefPlaces(es, tag)|
  {
    hide *;
    RefStep(es, tag);
    RefPlacesStep(es, tag);
    if es != [] {
      var n := |es| - 1;
      var front, last := es[..n], [es[n]];
      assert es == front + last;
      RefCount(front, tag);
      RefAppend(front, last, tag);
      RefStep(last, tag);
      RefStep(last[1..], tag);
    }
  }

  lemma RefPlacesStep(es: seq<Element>, tag: Tag)
    ensures es == [] ==> |RefPlaces(es, tag)| == 0
    ensures es != [] ==>
      |RefPlaces(es, tag)| == |RefPlaces(es[..|es| - 1], tag)| + if AnyRef(es[|es| - 1], tag) then 1 else 0
  {
    hide RefPlaces, AnyRef;
    forall i: nat
      ensures i in RefPlaces(es, tag) <==> i < |es| && AnyRef(es[i], tag)
    {
      RefPlaceMeans(es, tag, i);
    }
    if es != [] {
      var n := |es| - 1;
      forall i: nat
        ensures i in RefPlaces(es[..n], tag) <==> i < n && AnyRef(es[i], tag)
      {
        RefPlaceMeans(es[..n], tag, i);
      }
      Grows(RefPlaces(es[..n], tag), RefPlaces(es, tag), n, AnyRef(es[n], tag));
    }
  }

  lemma RefPlaceMeans(es: seq<Element>, tag: Tag, i: nat)
    ensures i in RefPlaces(es, tag) <==> i < |es| && AnyRef(es[i], tag)
  {
    hide AnyRef;
  }

  lemma OnlyRefMeans(e: Element, tag: Tag, text: string)
    ensures RefValues(e.children, tag) == [text] <==> RefersOnly(e, tag, text)
  {
    hide RefValues, RefPlaces, Refers;
    var refs := RefValues(e.children, tag);
    RefCount(e.children, tag);
    RefMeans(e, tag, text);
    if |refs| == 1 {
      assert refs == [refs[0]];
    }
  }

  lemma NoRefMeans(e: Element, tag: Tag)
    ensures RefValues(e.children, tag) == [] <==> forall text :: !Refers(e, tag, text)
  {
    hide RefValues, Refers;
    var refs := RefValues(e.children, tag);
    if refs != [] {
      RefMeans(e, tag, refs[0]);
    }
    if text :| Refers(e, tag, text) {
      RefMeans(e, tag, text);
    }
  }

  // ---------------------------------------------------------------- identifiers

  /** `x` is the child with this tag and identifier. */
  predicate Child(scope: Element, tag: Tag, id: string, x: Element) {
    x in scope.children && x.tag == tag && x.Attr(Id) == Some(id)
  }

  /** Some element below `scope` is of the kind and has the identifier. */
  ghost predicate Present(scope: Element, kind: IdKind, id: string) {
    exists x :: x in Found(scope.children, TagOf(kind)) && x.Attr(Id) == Some(id)
  }

  lemma PresentMeans(scope: Element, kind: IdKind, id: string)
    ensures id in IdsOf(scope, kind) <==> Present(scope, kind, id)
  {
    var es := Members(scope, kind);
    if id in IdsOf(scope, kind) {
      var i :| 0 <= i < |es| && es[i].Attr(Id) == Some(id);
      assert es[i] in Found(scope.children, TagOf(kind));
    }
    if x :| x in Found(scope.children, TagOf(kind)) && x.Attr(Id) == Some(id) {
      var i :| 0 <= i < |es| && es[i] == x;
      assert es[i].Attr(Id).Some?;
    }
  }

  lemma {:induction false} FindByIdIsMember(es: seq<Element>, tag: Tag, id: string)
    ensures var found, named := FindById(es, tag, id), Named(es, tag);
      && (found.Some? ==> found.value in named && found.value.Attr(Id) == Some(id))
      && (found.None? ==> forall e :: e in named ==> e.Attr(Id) != Some(id))
  {
    hide *;
    NamedStep(es, tag);
    FindStep(es, tag, id);
    if es != [] {
      FindByIdIsMember(es[1..], tag, id);
    }
  }

  lemma FindStep(es: seq<Element>, tag: Tag, id: string)
    ensures es == [] ==> FindById(es, tag, id) == None
    ensures es != [] ==>
      FindById(es, tag, id) ==
        if es[0].tag == tag && es[0].Attr(Id) == Some(id) then Some(es[0]) else FindById(es[1..], tag, id)
  {
    hide Element.Attr;
  }

  /** An identifier finds the child that carries it, given that the children of its kind have distinct ones. */
  lemma FindMeans(scope: Element, kind: IdKind, id: string, x: Element)
    requires DistinctIds(Named(scope.children, TagOf(kind)), kind)
    ensures FindById(scope.children, TagOf(kind), id) == Some(x) <==> Child(scope, TagOf(kind), id, x)
  {
    hide FindById, Named, IsAdmId, TagOf;
    var tag, found := TagOf(kind), FindById(scope.children, TagOf(kind), id);
    var named := Named(scope.children, tag);
    FindByIdIsMember(scope.children, tag, id);
    NamedMeans(scope.children, tag, x);
    if found.Some? {
      NamedMeans(scope.children, tag, found.value);
      var i :| 0 <= i < |named| && named[i] == found.value;
      if Child(scope, tag, id, x) {
        var j :| 0 <= j < |named| && named[j] == x;
        assert named[i].Attr(Id) == named[j].Attr(Id);
      }
    }
  }

  /** Children of one tag are a subsequence of all elements of that tag. */
  lemma {:induction false} NamedAreFound(es: seq<Element>, tag: Tag)
    ensures forall e :: e in Named(es, tag) ==> e in Found(es, tag)
  {
    if es != [] {
      NamedAreFound(es[1..], tag);
    }
  }

  lemma FoundParts(es: seq<Element>, kind: IdKind)
    requires es != [] && DistinctIds(Found(es, TagOf(kind)), kind)
    ensures DistinctIds(Found(es[1..], TagOf(kind)), kind)
    ensures es[0].tag == TagOf(kind) ==>
      Identified(es[0], kind) && forall e :: e in Found(es[1..], TagOf(kind)) ==> e.Attr(Id) != es[0].Attr(Id)
  {
    hide Found, TagOf, Identified;
    var tag := TagOf(kind);
    var head := if es[0].tag == tag then [es[0]] else [];
    var front, rest := head + Found(es[0].children, tag), Found(es[1..], tag);
    FoundSteps(es, tag);
    DistinctTail(front, rest, kind);
  }

  lemma DistinctTail(front: seq<Element>, rest: seq<Element>, kind: IdKind)
    requires DistinctIds(front + rest, kind)
    ensures DistinctIds(rest, kind)
    ensures front != [] ==> Identified(front[0], kind) && forall e :: e in rest ==> e.Attr(Id) != front[0].Attr(Id)
  {
    hide Identified;
    var all := front + rest;
    assert forall i :: 0 <= i < |rest| ==> all[|front| + i] == rest[i];
    assert front != [] ==> all[0] == front[0];
  }

  /** Children of one kind inherit the distinct identifiers of all elements of that kind. */
  lemma {:induction false} NamedAreDistinct(es: seq<Element>, kind: IdKind)
    requires DistinctIds(Found(es, TagOf(kind)), kind)
    ensures DistinctIds(Named(es, TagOf(kind)), kind)
  {
    hide IsAdmId, TagOf, Found;
    if es != [] {
      var rest := Named(es[1..], TagOf(kind));
      FoundParts(es, kind);
      NamedAreDistinct(es[1..], kind);
      NamedAreFound(es[1..], TagOf(kind));
      if es[0].tag == TagOf(kind) {
        assert forall j :: 0 <= j < |rest| ==> rest[j] in rest;
        assert Named(es, TagOf(kind)) == [es[0]] + rest;
      }
    }
  }

  // ---------------------------------------------------------------- positions

  predicate IsAxis(c: Element, axis: string) {
    c.tag == Position && c.Attr(Coordinate) == Some(axis)
  }

  /** The first position of an axis has this text. */
  ghost predicate AxisText(b: Element, axis: string, text: Option<string>) {
    exists i: nat :: i < |b.children| && IsAxis(b.children[i], axis) && b.children[i].text == text &&
      forall j :: 0 <= j < i ==> !IsAxis(b.children[j], axis)
  }

  ghost predicate HasAxis(b: Element, axis: string) {
    exists c :: c in b.children && IsAxis(c, axis)
  }

  lemma HasAxisMeans(b: Element, axis: string)
    ensures HasCoordinate(b, axis) <==> HasAxis(b, axis)
  {
    hide Named;
    var positions := Named(b.children, Position);
    if HasCoordinate(b, axis) {
      var i :| 0 <= i < |positions| && positions[i].Attr(Coordinate) == Some(axis);
      NamedMeans(b.children, Position, positions[i]);
      assert IsAxis(positions[i], axis);
    }
    if c :| c in b.children && IsAxis(c, axis) {
      NamedMeans(b.children, Position, c);
      var i :| 0 <= i < |positions| && positions[i] == c;
    }
  }

  lemma {:induction false} PositionPlace(es: seq<Element>, axis: string) returns (i: nat)
    requires exists c :: c in es && IsAxis(c, axis)
    ensures i < |es| && IsAxis(es[i], axis) && es[i].text == PositionText(es, axis)
    ensures forall j :: 0 <= j < i ==> !IsAxis(es[j], axis)
  {
    if IsAxis(es[0], axis) {
      i := 0;
    } else {
      assert forall c :: c in es ==> c == es[0] || c in es[1..];
      var j := PositionPlace(es[1..], axis);
      i := j + 1;
      assert forall m :: 0 < m < i ==> es[m] == es[1..][m - 1];
    }
  }

  lemma {:induction false} NoPosition(es: seq<Element>, axis: string)
    requires forall c :: c in es ==> !IsAxis(c, axis)
    ensures PositionText(es, axis) == None
  {
    if es != [] {
      assert !IsAxis(es[0], axis);
      assert forall c :: c in es[1..] ==> c in es;
      NoPosition(es[1..], axis);
    }
  }

  lemma AxisTextMeans(b: Element, axis: string, text: string)
    ensures AxisText(b, axis, Some(text)) <==> PositionText(b.children, axis) == Some(text)
  {
    hide PositionText, IsAxis;
    if HasAxis(b, axis) {
      var i := PositionPlace(b.children, axis);
      if AxisText(b, axis, Some(text)) {
        var k: nat :| k < |b.children| && IsAxis(b.children[k], axis) && b.children[k].text == Some(text) &&
          forall j :: 0 <= j < k ==> !IsAxis(b.children[j], axis);
        assert k == i;
      }
    } else {
      NoPosition(b.children, axis);
    }
  }
}
