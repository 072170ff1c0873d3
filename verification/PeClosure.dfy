/** The PE dependency worklist of the packager, and the auditor that re-checks its result. */
module PeClosure {
  import opened Wrappers

  /** A directory entry: a file under its on-disk name. */
  datatype Entry<F> = Entry(name: string, file: F)

  /** What the packager can observe: imports of a file, which names belong to the system, how names fold,
      and the directories it searches. */
  datatype World<!F> = World(
    imports: F -> seq<string>, system: string -> bool, lower: string -> string, directories: seq<seq<Entry<F>>>)

  // ---------------------------------------------------------------- name resolution

  /** The first entry with this exact name. */
  function Exact<F>(entries: seq<Entry<F>>, name: string): Option<F> {
    if entries == [] then None
    else if entries[0].name == name then Some(entries[0].file)
    else Exact(entries[1..], name)
  }

  /** The first entry whose name folds to the same string. */
  function Folded<F>(w: World<F>, entries: seq<Entry<F>>, name: string): Option<F> {
    if entries == [] then None
    else if w.lower(entries[0].name) == w.lower(name) then Some(entries[0].file)
    else Folded(w, entries[1..], name)
  }

  function InDirectory<F>(w: World<F>, entries: seq<Entry<F>>, name: string): Option<F> {
    var direct := Exact(entries, name);
    if direct.Some? then direct else Folded(w, entries, name)
  }

  /** `find_case_insensitive` over the directories from `k` on. */
  function Search<F>(w: World<F>, name: string, k: nat): Option<F>
    requires k <= |w.directories|
    decreases |w.directories| - k
  {
    if k == |w.directories| then None
    else
      var hit := InDirectory(w, w.directories[k], name);
      if hit.Some? then hit else Search(w, name, k + 1)
  }

  function Resolve<F>(w: World<F>, name: string): Option<F> {
    Search(w, name, 0)
  }

  /** Entry `i` carries exactly this name, and no entry before it does. */
  ghost predicate FirstExact<F>(entries: seq<Entry<F>>, name: string, i: nat) {
    i < |entries| && entries[i].name == name && forall j :: 0 <= j < i ==> entries[j].name != name
  }

  /** Entry `i` carries a spelling of the name, and no entry before it does. */
  ghost predicate FirstSpelling<F>(w: World<F>, entries: seq<Entry<F>>, name: string, i: nat) {
    && i < |entries| && w.lower(entries[i].name) == w.lower(name)
    && forall j :: 0 <= j < i ==> w.lower(entries[j].name) != w.lower(name)
  }

  ghost predicate HoldsSpelling<F>(w: World<F>, entries: seq<Entry<F>>, name: string) {
    exists i :: 0 <= i < |entries| && w.lower(entries[i].name) == w.lower(name)
  }

  ghost predicate HoldsExact<F>(entries: seq<Entry<F>>, name: string) {
    exists i :: 0 <= i < |entries| && entries[i].name == name
  }

  /** Directory `k` is the first with any spelling of the name, and `f` is its file of exactly that name, or else
      its first file under another spelling. */
  ghost predicate FoundIn<F>(w: World<F>, name: string, k: nat, f: F) {
    && k < |w.directories| && HoldsSpelling(w, w.directories[k], name)
    && (forall j :: 0 <= j < k ==> !HoldsSpelling(w, w.directories[j], name))
    && (if HoldsExact(w.directories[k], name)
        then exists i: nat :: FirstExact(w.directories[k], name, i) && w.directories[k][i].file == f
        else exists i: nat :: FirstSpelling(w, w.directories[k], name, i) && w.directories[k][i].file == f)
  }

  /** `find_case_insensitive`: the first directory with any spelling of the name decides, and in it an exact name
      is preferred. */
  method FindCaseInsensitive<F>(w: World<F>, name: string) returns (r: Option<F>)
    ensures r == Resolve(w, name)
    ensures r.Some? ==> exists k: nat :: FoundIn(w, name, k, r.value)
    ensures r.None? ==> forall k :: 0 <= k < |w.directories| ==> !HoldsSpelling(w, w.directories[k], name)
  {
    for k := 0 to |w.directories|
      invariant Resolve(w, name) == Search(w, name, k)
      invariant forall j :: 0 <= j < k ==> !HoldsSpelling(w, w.directories[j], name)
    {
      var entries := w.directories[k];
      for i := 0 to |entries|
        invariant Exact(entries, name) == Exact(entries[i..], name)
        invariant forall j :: 0 <= j < i ==> entries[j].name != name
      {
        if entries[i].name == name {
          assert FirstExact(entries, name, i) && FoundIn(w, name, k, entries[i].file);
          return Some(entries[i].file);
        }
      }
      for i := 0 to |entries|
        invariant Folded(w, entries, name) == Folded(w, entries[i..], name)
        invariant forall j :: 0 <= j < i ==> w.lower(entries[j].name) != w.lower(name)
      {
        if w.lower(entries[i].name) == w.lower(name) {
          assert FirstSpelling(w, entries, name, i) && FoundIn(w, name, k, entries[i].file);
          return Some(entries[i].file);
        }
      }
    }
    return None;
  }

  /** Resolution yields a file exactly when the rule of the first directory finds it there, and nothing exactly
      when no directory has any spelling of the name. */
  lemma ResolveMeans<F>(w: World<F>, name: string, f: F)
    ensures Resolve(w, name) == Some(f) <==> exists k: nat :: FoundIn(w, name, k, f)
    ensures Resolve(w, name) == None <==>
      forall k :: 0 <= k < |w.directories| ==> !HoldsSpelling(w, w.directories[k], name)
  {
    SearchMeans(w, name, 0);
    hide Search, HoldsSpelling, HoldsExact;
    if k: nat :| FoundIn(w, name, k, f) {
      var d: nat :| FoundIn(w, name, d, Search(w, name, 0).value);
      FoundIsUnique(w, name, k, f, d, Search(w, name, 0).value);
    }
  }

  lemma FoundIsUnique<F>(w: World<F>, name: string, k: nat, f: F, d: nat, g: F)
    requires FoundIn(w, name, k, f) && FoundIn(w, name, d, g)
    ensures k == d && f == g
  {
    assert k == d by {
      hide HoldsSpelling, HoldsExact, FirstExact, FirstSpelling;
    }
    var entries := w.directories[k];
    if HoldsExact(entries, name) {
      var i: nat :| FirstExact(entries, name, i) && entries[i].file == f;
      var j: nat :| FirstExact(entries, name, j) && entries[j].file == g;
      assert i == j;
    } else {
      var i: nat :| FirstSpelling(w, entries, name, i) && entries[i].file == f;
      var j: nat :| FirstSpelling(w, entries, name, j) && entries[j].file == g;
      assert i == j;
    }
  }

  lemma {:induction false} SearchMeans<F>(w: World<F>, name: string, k: nat)
    requires k <= |w.directories| && forall j :: 0 <= j < k ==> !HoldsSpelling(w, w.directories[j], name)
    ensures Search(w, name, k).Some? ==> exists d: nat :: FoundIn(w, name, d, Search(w, name, k).value)
    ensures Search(w, name, k).None? ==> forall j :: 0 <= j < |w.directories| ==>
      !HoldsSpelling(w, w.directories[j], name)
    decreases |w.directories| - k
  {
    if k < |w.directories| {
      InDirectoryMeans(w, w.directories[k], name);
      hide InDirectory, HoldsExact, HoldsSpelling, FirstExact, FirstSpelling;
      if InDirectory(w, w.directories[k], name).None? {
        SearchMeans(w, name, k + 1);
      } else {
        assert FoundIn(w, name, k, Search(w, name, k).value);
      }
    }
  }

  lemma InDirectoryMeans<F>(w: World<F>, entries: seq<Entry<F>>, name: string)
    ensures InDirectory(w, entries, name).Some? <==> HoldsSpelling(w, entries, name)
    ensures InDirectory(w, entries, name).Some? ==>
      var f := InDirectory(w, entries, name).value;
      if HoldsExact(entries, name) then exists i: nat :: FirstExact(entries, name, i) && entries[i].file == f
      else exists i: nat :: FirstSpelling(w, entries, name, i) && entries[i].file == f
  {
    ExactMeans(entries, name);
    FoldedMeans(w, entries, name);
    hide Exact, Folded;
    if HoldsExact(entries, name) {
      var i :| 0 <= i < |entries| && entries[i].name == name;
      assert w.lower(entries[i].name) == w.lower(name);
    }
  }

  lemma {:induction false} ExactMeans<F>(entries: seq<Entry<F>>, name: string)
    ensures Exact(entries, name).Some? <==> HoldsExact(entries, name)
    ensures Exact(entries, name).Some? ==>
      exists i: nat :: FirstExact(entries, name, i) && entries[i].file == Exact(entries, name).value
  {
    if entries != [] {
      if entries[0].name == name {
        assert FirstExact(entries, name, 0);
      } else {
        ExactMeans(entries[1..], name);
        if Exact(entries, name).Some? {
          var i: nat :| FirstExact(entries[1..], name, i) && entries[1..][i].file == Exact(entries, name).value;
          assert forall j :: 0 < j < |entries| ==> entries[j] == entries[1..][j - 1];
          assert FirstExact(entries, name, i + 1) && entries[i + 1].file == Exact(entries, name).value;
        }
      }
    }
  }

  lemma {:induction false} FoldedMeans<F>(w: World<F>, entries: seq<Entry<F>>, name: string)
    ensures Folded(w, entries, name).Some? <==> HoldsSpelling(w, entries, name)
    ensures Folded(w, entries, name).Some? ==>
      exists i: nat :: FirstSpelling(w, entries, name, i) && entries[i].file == Folded(w, entries, name).value
  {
    if entries != [] {
      if w.lower(entries[0].name) == w.lower(name) {
        assert FirstSpelling(w, entries, name, 0);
      } else {
        FoldedMeans(w, entries[1..], name);
        if Folded(w, entries, name).Some? {
          var i: nat :| FirstSpelling(w, entries[1..], name, i) &&
            entries[1..][i].file == Folded(w, entries, name).value;
          assert forall j :: 0 < j < |entries| ==> entries[j] == entries[1..][j - 1];
          assert FirstSpelling(w, entries, name, i + 1) && entries[i + 1].file == Folded(w, entries, name).value;
        }
      }
    }
  }

  // ---------------------------------------------------------------- the least closed set

  /** `name` is a dependency that has to be bundled with `f`. */
  predicate Needs<F>(w: World<F>, f: F, name: string) {
    name in w.imports(f) && !w.system(name)
  }

  ghost predicate IsClosed<F(!new)>(w: World<F>, s: set<F>) {
    forall f, n :: f in s && Needs(w, f, n) && Resolve(w, n).Some? ==> Resolve(w, n).value in s
  }

  ghost predicate Holds<F>(s: set<F>, roots: seq<F>) {
    forall i :: 0 <= i < |roots| ==> roots[i] in s
  }

  /** `s` is the least set that holds the roots and is closed under dependencies. */
  ghost predicate IsClosure<F(!new)>(w: World<F>, roots: seq<F>, s: set<F>) {
    && Holds(s, roots) && IsClosed(w, s)
    && forall t: set<F> :: Holds(t, roots) && IsClosed(w, t) ==> s <= t
  }

  lemma ClosureIsUnique<F(!new)>(w: World<F>, roots: seq<F>, s: set<F>, t: set<F>)
    requires IsClosure(w, roots, s) && IsClosure(w, roots, t)
    ensures s == t
  {
    assert s <= t && t <= s;
  }

  /** A dependency of a file that no closed set can avoid resolves nowhere. */
  ghost predicate Broken<F(!new)>(w: World<F>, roots: seq<F>) {
    exists f, n :: Inevitable(w, roots, f) && Needs(w, f, n) && Resolve(w, n).None?
  }

  ghost predicate Inevitable<F(!new)>(w: World<F>, roots: seq<F>, f: F) {
    forall t: set<F> :: Holds(t, roots) && IsClosed(w, t) ==> f in t
  }

  /** Spellings of one name that reachable files import resolve to one file. */
  ghost predicate Coherent<F(!new)>(w: World<F>, roots: seq<F>) {
    forall f, g, a, b ::
      Inevitable(w, roots, f) && Inevitable(w, roots, g) && Needs(w, f, a) && Needs(w, g, b) &&
        w.lower(a) == w.lower(b) ==>
        Resolve(w, a) == Resolve(w, b)
  }

  ghost predicate AllResolved<F(!new)>(w: World<F>, s: set<F>) {
    forall f, n :: f in s && Needs(w, f, n) ==> Resolve(w, n).Some?
  }

  // ---------------------------------------------------------------- files there are

  function FilesOf<F>(entries: seq<Entry<F>>): set<F> {
    set i | 0 <= i < |entries| :: entries[i].file
  }

  function AllFiles<F>(directories: seq<seq<Entry<F>>>): set<F> {
    if directories == [] then {} else FilesOf(directories[0]) + AllFiles(directories[1..])
  }

  lemma {:induction false} SearchFindsAFile<F>(w: World<F>, name: string, k: nat)
    requires k <= |w.directories| && Search(w, name, k).Some?
    ensures Search(w, name, k).value in AllFiles(w.directories[k..])
    decreases |w.directories| - k
  {
    assert w.directories[k..][1..] == w.directories[k + 1..];
    var entries := w.directories[k];
    InDirectoryMeans(w, entries, name);
    if InDirectory(w, entries, name).None? {
      SearchFindsAFile(w, name, k + 1);
    }
  }

  /** All files the worklist can ever meet. */
  function Universe<F>(w: World<F>, roots: seq<F>): set<F> {
    (set i | 0 <= i < |roots| :: roots[i]) + AllFiles(w.directories)
  }

  lemma ResolvedIsInUniverse<F>(w: World<F>, roots: seq<F>, name: string)
    requires Resolve(w, name).Some?
    ensures Resolve(w, name).value in Universe(w, roots)
  {
    SearchFindsAFile(w, name, 0);
    assert w.directories[0..] == w.directories;
  }

  // ---------------------------------------------------------------- collection

  /** System names imported by the files of a set. */
  ghost predicate IsExternal<F(!new)>(w: World<F>, s: set<F>, external: set<string>) {
    forall n :: n in external <==> exists f :: f in s && n in w.imports(f) && w.system(n)
  }

  ghost predicate Covered<F>(w: World<F>, copied: map<string, F>, name: string) {
    exists key :: key in copied && w.lower(key) == w.lower(name)
  }

  /** `copied` bundles what the files of `s` need: one spelling of each needed name, with its file. */
  ghost predicate Bundles<F(!new)>(w: World<F>, s: set<F>, copied: map<string, F>) {
    && (forall f, n :: f in s && Needs(w, f, n) ==> Covered(w, copied, n))
    && (forall key :: key in copied ==>
          Resolve(w, key) == Some(copied[key]) && exists f :: f in s && Needs(w, f, key))
    && (forall a, b :: a in copied && b in copied && w.lower(a) == w.lower(b) ==> a == b)
  }

  /** What the loop has established about the names of one file, up to import `i`. */
  ghost predicate NamesDone<F>(w: World<F>, f: F, i: nat, copied: map<string, F>, external: set<string>)
    requires i <= |w.imports(f)|
  {
    forall k :: 0 <= k < i ==>
      var n := w.imports(f)[k];
      if w.system(n) then n in external else Resolve(w, n).Some? && Covered(w, copied, n)
  }

  /** The worklist's state: the names of `done` are dealt with, `seen` was taken from the queue. */
  ghost predicate Progress<F(!new)>(w: World<F>, roots: seq<F>, done: set<F>, seen: set<F>, queue: seq<F>,
      copied: map<string, F>, external: set<string>) {
    && done <= seen
    && (forall f :: f in roots ==> f in seen || f in queue)
    && (forall f :: f in seen || f in queue ==> Inevitable(w, roots, f) && f in Universe(w, roots))
    && (forall key :: key in copied ==>
      Resolve(w, key) == Some(copied[key]) && (copied[key] in seen || copied[key] in queue))
    && (forall a, b :: a in copied && b in copied && w.lower(a) == w.lower(b) ==> a == b)
    && (forall f :: f in done ==> NamesDone(w, f, |w.imports(f)|, copied, external))
    && Justified(w, seen, copied, external)
  }

  /** Nothing was taken that no seen file imports. */
  ghost predicate Justified<F(!new)>(w: World<F>, s: set<F>, copied: map<string, F>, external: set<string>) {
    && (forall key :: key in copied ==> Needed(w, s, key))
    && (forall n :: n in external ==> exists f :: f in s && n in w.imports(f) && w.system(n))
  }

  ghost predicate Needed<F(!new)>(w: World<F>, s: set<F>, name: string) {
    exists f :: f in s && Needs(w, f, name)
  }

  lemma InevitableStep<F(!new)>(w: World<F>, roots: seq<F>, f: F, n: string)
    requires Inevitable(w, roots, f) && Needs(w, f, n) && Resolve(w, n).Some?
    ensures Inevitable(w, roots, Resolve(w, n).value) && Resolve(w, n).value in Universe(w, roots)
  {
    hide Resolve, Universe;
    ResolvedIsInUniverse(w, roots, n);
    forall t: set<F> | Holds(t, roots) && IsClosed(w, t)
      ensures Resolve(w, n).value in t
    {
      assert f in t;
    }
  }

  lemma Starts<F(!new)>(w: World<F>, roots: seq<F>)
    ensures Progress(w, roots, {}, {}, roots, map[], {})
  {
    hide Resolve;
    forall f | f in roots
      ensures f in Universe(w, roots)
    {
      var i :| 0 <= i < |roots| && roots[i] == f;
    }
  }

  /** The head of the queue becomes the file under work. */
  lemma Takes<F(!new)>(w: World<F>, roots: seq<F>, seen: set<F>, queue: seq<F>, copied: map<string, F>,
      external: set<string>)
    requires Progress(w, roots, seen, seen, queue, copied, external) && queue != []
    ensures queue[0] in Universe(w, roots)
    ensures Progress(w, roots, seen, seen + {queue[0]}, queue[1..], copied, external)
    ensures queue[0] in seen ==> Progress(w, roots, seen, seen, queue[1..], copied, external)
    ensures NamesDone(w, queue[0], 0, copied, external)
  {
    hide Resolve, Universe, Inevitable, NamesDone;
    NothingDone(w, queue[0], copied, external);
    assert forall f :: f in queue ==> f == queue[0] || f in queue[1..];
  }

  lemma NothingDone<F(!new)>(w: World<F>, f: F, copied: map<string, F>, external: set<string>)
    ensures NamesDone(w, f, 0, copied, external)
  {
  }

  /** More names never undo what was established. */
  lemma NamesStay<F(!new)>(w: World<F>, f: F, i: nat, copied: map<string, F>, external: set<string>,
      more: map<string, F>, extra: set<string>)
    requires i <= |w.imports(f)| && NamesDone(w, f, i, copied, external)
    requires (forall key :: key in copied ==> key in more) && external <= extra
    ensures NamesDone(w, f, i, more, extra)
  {
    hide Resolve;
    forall n | Covered(w, copied, n)
      ensures Covered(w, more, n)
    {
      var key :| key in copied && w.lower(key) == w.lower(n);
      assert key in more;
    }
  }

  lemma NextName<F(!new)>(w: World<F>, f: F, i: nat, copied: map<string, F>, external: set<string>)
    requires i < |w.imports(f)| && NamesDone(w, f, i, copied, external)
    requires var n := w.imports(f)[i];
      if w.system(n) then n in external else Resolve(w, n).Some? && Covered(w, copied, n)
    ensures NamesDone(w, f, i + 1, copied, external)
  {
    hide Resolve, Covered;
  }

  /** A system name of the file under work is recorded. */
  lemma TakesExternal<F(!new)>(w: World<F>, roots: seq<F>, done: set<F>, seen: set<F>, queue: seq<F>,
      copied: map<string, F>, external: set<string>, f: F, i: nat)
    requires Progress(w, roots, done, seen, queue, copied, external) && f in seen
    requires i < |w.imports(f)| && w.system(w.imports(f)[i]) && NamesDone(w, f, i, copied, external)
    ensures Progress(w, roots, done, seen, queue, copied, external + {w.imports(f)[i]})
    ensures NamesDone(w, f, i + 1, copied, external + {w.imports(f)[i]})
  {
    hide Resolve, Universe, Inevitable, NamesDone, Needed;
    var extra := external + {w.imports(f)[i]};
    forall g | g in done
      ensures NamesDone(w, g, |w.imports(g)|, copied, extra)
    {
      NamesStay(w, g, |w.imports(g)|, copied, external, copied, extra);
    }
    NamesStay(w, f, i, copied, external, copied, extra);
    NextName(w, f, i, copied, extra);
  }

  /** A needed name of the file under work is bundled, unless some spelling of it already is. */
  lemma TakesDependency<F(!new)>(w: World<F>, roots: seq<F>, done: set<F>, seen: set<F>, queue: seq<F>,
      copied: map<string, F>, external: set<string>, f: F, i: nat)
    requires Progress(w, roots, done, seen, queue, copied, external) && f in seen
    requires i < |w.imports(f)| && Needs(w, f, w.imports(f)[i]) && NamesDone(w, f, i, copied, external)
    requires Resolve(w, w.imports(f)[i]).Some?
    ensures var n := w.imports(f)[i];
      if HasSpelling(w, copied, n) then NamesDone(w, f, i + 1, copied, external)
      else
        var more, file := copied[n := Resolve(w, n).value], Resolve(w, n).value;
        Progress(w, roots, done, seen, queue + [file], more, external) && NamesDone(w, f, i + 1, more, external)
  {
    hide Resolve, Universe, Inevitable, NamesDone, Needed;
    var n := w.imports(f)[i];
    if HasSpelling(w, copied, n) {
      assert Covered(w, copied, n);
      NextName(w, f, i, copied, external);
    } else {
      var file := Resolve(w, n).value;
      var more := copied[n := file];
      InevitableStep(w, roots, f, n);
      forall g | g in done
        ensures NamesDone(w, g, |w.imports(g)|, more, external)
      {
        NamesStay(w, g, |w.imports(g)|, copied, external, more, external);
      }
      NamesStay(w, f, i, copied, external, more, external);
      assert n in more;
      assert Covered(w, more, n);
      NextName(w, f, i, more, external);
      NeededBy(w, seen, f, n);
      assert forall a :: a in copied ==> w.lower(a) != w.lower(n) by {
        assert forall a :: a in copied ==> a in copied.Keys;
      }
    }
  }

  lemma NeededBy<F(!new)>(w: World<F>, s: set<F>, f: F, n: string)
    requires f in s && Needs(w, f, n)
    ensures Needed(w, s, n)
  {
  }

  lemma Breaks<F(!new)>(w: World<F>, roots: seq<F>, done: set<F>, seen: set<F>, queue: seq<F>, copied: map<string, F>,
      external: set<string>, f: F, n: string)
    requires Progress(w, roots, done, seen, queue, copied, external) && f in seen
    requires Needs(w, f, n) && Resolve(w, n).None?
    ensures Broken(w, roots)
  {
    hide Resolve, Universe, NamesDone, Inevitable, Justified;
    assert Inevitable(w, roots, f);
  }

  lemma Finishes<F(!new)>(w: World<F>, roots: seq<F>, done: set<F>, seen: set<F>, queue: seq<F>,
      copied: map<string, F>, external: set<string>, f: F)
    requires Progress(w, roots, done, seen, queue, copied, external) && f in seen && seen == done + {f}
    requires NamesDone(w, f, |w.imports(f)|, copied, external)
    ensures Progress(w, roots, seen, seen, queue, copied, external)
  {
    hide Resolve, Universe, NamesDone, Inevitable, Justified;
  }

  /** Every import of every file in `s` is resolved and recorded. */
  ghost predicate Recorded<F(!new)>(w: World<F>, s: set<F>, copied: map<string, F>, external: set<string>) {
    forall f, n :: f in s && n in w.imports(f) ==>
      if w.system(n) then n in external else Resolve(w, n).Some? && Covered(w, copied, n)
  }

  lemma AllRecorded<F(!new)>(w: World<F>, s: set<F>, copied: map<string, F>, external: set<string>)
    requires forall f :: f in s ==> NamesDone(w, f, |w.imports(f)|, copied, external)
    ensures Recorded(w, s, copied, external)
  {
    hide Resolve, Covered;
    forall f, n | f in s && n in w.imports(f)
      ensures if w.system(n) then n in external else Resolve(w, n).Some? && Covered(w, copied, n)
    {
      var k :| 0 <= k < |w.imports(f)| && w.imports(f)[k] == n;
      assert NamesDone(w, f, |w.imports(f)|, copied, external);
    }
  }

  lemma SeenIsClosed<F(!new)>(w: World<F>, roots: seq<F>, seen: set<F>, copied: map<string, F>, external: set<string>)
    requires Progress(w, roots, seen, seen, [], copied, external) && Recorded(w, seen, copied, external) &&
      Coherent(w, roots)
    ensures IsClosure(w, roots, seen)
  {
    hide Resolve, Universe, NamesDone, Inevitable, IsClosed, Coherent, Needs;
    forall f, n | f in seen && Needs(w, f, n) && Resolve(w, n).Some?
      ensures Resolve(w, n).value in seen
    {
      NeedsIs(w, f, n);
      var key :| key in copied && w.lower(key) == w.lower(n);
      SameFile(w, roots, seen, f, n, key);
    }
    ClosedMeans(w, seen);
    hide Recorded;
    forall t: set<F> | Holds(t, roots) && IsClosed(w, t)
      ensures seen <= t
    {
      InevitableIsIn(w, roots, seen, t);
    }
  }

  lemma SameFile<F(!new)>(w: World<F>, roots: seq<F>, s: set<F>, f: F, n: string, key: string)
    requires Coherent(w, roots) && forall g :: g in s ==> Inevitable(w, roots, g)
    requires f in s && Needs(w, f, n) && Needed(w, s, key) && w.lower(key) == w.lower(n)
    ensures Resolve(w, n) == Resolve(w, key)
  {
    hide Resolve, Inevitable, Needs;
    var g :| g in s && Needs(w, g, key);
  }

  lemma ClosedMeans<F(!new)>(w: World<F>, s: set<F>)
    requires forall f, n :: f in s && Needs(w, f, n) && Resolve(w, n).Some? ==> Resolve(w, n).value in s
    ensures IsClosed(w, s)
  {
  }

  lemma InevitableIsIn<F(!new)>(w: World<F>, roots: seq<F>, s: set<F>, t: set<F>)
    requires Holds(t, roots) && IsClosed(w, t) && forall f :: f in s ==> Inevitable(w, roots, f)
    ensures s <= t
  {
    hide Holds, IsClosed;
  }

  lemma NothingBroken<F(!new)>(w: World<F>, roots: seq<F>, seen: set<F>, copied: map<string, F>, external: set<string>)
    requires IsClosure(w, roots, seen) && Recorded(w, seen, copied, external)
    ensures !Broken(w, roots) && AllResolved(w, seen)
  {
    hide Resolve, Covered, IsClosed;
    forall f, n | Inevitable(w, roots, f) && Needs(w, f, n)
      ensures Resolve(w, n).Some?
    {
      assert f in seen;
    }
  }

  lemma RecordedBundles<F(!new)>(w: World<F>, roots: seq<F>, seen: set<F>, copied: map<string, F>,
      external: set<string>)
    requires Progress(w, roots, seen, seen, [], copied, external) && Recorded(w, seen, copied, external)
    ensures Bundles(w, seen, copied) && IsExternal(w, seen, external)
  {
    hide Resolve, Universe, NamesDone, Inevitable, Covered;
    forall key | key in copied
      ensures exists f :: f in seen && Needs(w, f, key)
    {
      assert Needed(w, seen, key);
    }
  }

  /** What a collection has read whatever the spellings: the roots and every bundled file, nothing that a closed
      set could do without, and no file with an unresolved dependency. */
  ghost predicate Gathered<F(!new)>(w: World<F>, roots: seq<F>, s: set<F>, copied: map<string, F>) {
    && Holds(s, roots) && (forall key :: key in copied ==> copied[key] in s)
    && (forall f :: f in s ==> Inevitable(w, roots, f)) && AllResolved(w, s)
  }

  lemma ReadIsGathered<F(!new)>(w: World<F>, roots: seq<F>, seen: set<F>, copied: map<string, F>, external: set<string>)
    requires Progress(w, roots, seen, seen, [], copied, external) && Recorded(w, seen, copied, external)
    ensures Gathered(w, roots, seen, copied)
  {
    hide Resolve, Universe, NamesDone, Inevitable, Covered, Justified;
  }

  /** An empty queue means that everything seen is recorded, and that the closure is complete if spellings agree. */
  lemma Completes<F(!new)>(w: World<F>, roots: seq<F>, seen: set<F>, copied: map<string, F>, external: set<string>)
    requires Progress(w, roots, seen, seen, [], copied, external)
    ensures Gathered(w, roots, seen, copied) && Bundles(w, seen, copied) && IsExternal(w, seen, external)
    ensures Coherent(w, roots) ==> IsClosure(w, roots, seen) && !Broken(w, roots)
  {
    hide *;
    DoneNames(w, roots, seen, copied, external);
    AllRecorded(w, seen, copied, external);
    RecordedBundles(w, roots, seen, copied, external);
    ReadIsGathered(w, roots, seen, copied, external);
    if Coherent(w, roots) {
      SeenIsClosed(w, roots, seen, copied, external);
      NothingBroken(w, roots, seen, copied, external);
    }
  }

  lemma DoneNames<F(!new)>(w: World<F>, roots: seq<F>, seen: set<F>, copied: map<string, F>, external: set<string>)
    requires Progress(w, roots, seen, seen, [], copied, external)
    ensures forall f :: f in seen ==> NamesDone(w, f, |w.imports(f)|, copied, external)
  {
    hide NamesDone, Inevitable, Universe, Resolve, Justified;
  }

  /** `any(key.lower() == name.lower() for key in copied)`. */
  predicate HasSpelling<F>(w: World<F>, copied: map<string, F>, name: string) {
    exists key | key in copied.Keys :: w.lower(key) == w.lower(name)
  }

  /** What a successful collection returns: the bundled files by name, and the system names. */
  datatype Collection<F> = Collection(copied: map<string, F>, external: set<string>)

  /** `collect_windows_closure`. It fails only on an unresolved dependency of a reachable file. A success has
      read only files reachable from the roots, with all dependencies resolved, bundles one spelling of every
      non-system name they import and reports their system names; when spellings agree, those files are exactly
      the least closure of the roots. */
  method CollectWindowsClosure<F(==,!new)>(w: World<F>, roots: seq<F>)
      returns (r: Option<Collection<F>>, ghost reached: set<F>)
    ensures r.None? ==> Broken(w, roots)
    ensures r.Some? ==> Gathered(w, roots, reached, r.value.copied)
    ensures r.Some? ==> Bundles(w, reached, r.value.copied) && IsExternal(w, reached, r.value.external)
    ensures r.Some? && Coherent(w, roots) ==> !Broken(w, roots) && IsClosure(w, roots, reached)
  {
    hide *;
    var copied: map<string, F> := map[];
    var external: set<string> := {};
    var queue := roots;
    var seen: set<F> := {};
    Starts(w, roots);
    while queue != []
      invariant Progress(w, roots, seen, seen, queue, copied, external)
      decreases Universe(w, roots) - seen, |queue|
    {
      Takes(w, roots, seen, queue, copied, external);
      var source := queue[0];
      queue := queue[1..];
      if source in seen {
        continue;
      }
      ghost var done := seen;
      seen := seen + {source};
      assert source in Universe(w, roots) - done;
      assert Universe(w, roots) - seen < Universe(w, roots) - done;
      var names := w.imports(source);
      for i := 0 to |names|
        invariant Progress(w, roots, done, seen, queue, copied, external)
        invariant NamesDone(w, source, i, copied, external)
      {
        var name := names[i];
        if w.system(name) {
          TakesExternal(w, roots, done, seen, queue, copied, external, source, i);
          external := external + {name};
          continue;
        }
        NeedsIs(w, source, name);
        var dependency := FindCaseInsensitive(w, name);
        if dependency.None? {
          Breaks(w, roots, done, seen, queue, copied, external, source, name);
          return None, seen;
        }
        TakesDependency(w, roots, done, seen, queue, copied, external, source, i);
        if !HasSpelling(w, copied, name) {
          copied := copied[name := dependency.value];
          queue := queue + [dependency.value];
        }
      }
      Finishes(w, roots, done, seen, queue, copied, external, source);
    }
    Completes(w, roots, seen, copied, external);
    return Some(Collection(copied, external)), seen;
  }

  lemma NeedsIs<F>(w: World<F>, f: F, name: string)
    ensures Needs(w, f, name) <==> name in w.imports(f) && !w.system(name)
  {
  }
}
